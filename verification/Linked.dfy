/** Calls that run the code of the callee. */
module Linked {
  import opened Wrappers
  import opened Ast
  import opened Ir
  import opened Source
  import opened Lower
  import opened Preservation

  /** What a function outside the program gives back. */
  datatype Reply = Reply(n: int, globals: Globals)

  type Callee = (seq<Event>, Globals, string, seq<Option<int>>) -> Reply

  /** A program, and what the world outside it replies to the calls that it makes. */
  datatype Program = Program(
    globals: set<string>, voids: set<string>, functions: seq<Function>, op: (Ast.BinOp, int, int) -> int,
    outside: Callee)

  function OutsideAnswer(p: Program, trace: seq<Event>, g: Globals, f: string, ns: seq<Option<int>>): Answer {
    var r := p.outside(trace, g, f, ns);
    Answer(r.n, r.globals, trace)
  }

  function OutsideWorld(p: Program): World {
    World(p.op, (trace, g, f, ns) => OutsideAnswer(p, trace, g, f, ns))
  }

  /** A call that does not return, or lies too deep, leaves its mark in the trace. */
  function NoAnswer(trace: seq<Event>, g: Globals): Answer {
    Answer(0, g, trace + [Unanswered])
  }

  ghost predicate Lowerable(p: Program) {
    && (forall i | 0 <= i < |p.functions| :: FunctionScoped(p.globals, p.functions[i]))
    && ProgramFaithful(Context(p.globals, p.voids, OutsideWorld(p)), p.globals, p.functions)
  }

  /** The lowered code of function `i`. */
  function CodeFor(p: Program, i: nat): Code
    requires i < |p.functions|
  {
    LowerAllLength(p.voids, p.functions, GlobalTable(p.globals), 1);
    CodeOf(LowerAll(p.voids, p.functions, GlobalTable(p.globals), 1)[i])
  }

  /** The first function of that name is the one that is called. */
  function Named(fs: seq<Function>, f: string): (r: Option<nat>)
    ensures r.Some? ==> r.value < |fs| && fs[r.value].name == f
    decreases fs
  {
    if fs == [] then None
    else if fs[0].name == f then Some(0)
    else
      match Named(fs[1..], f)
      case None => None
      case Some(i) => Some(i + 1)
  }

  /** The arguments of a call all of whose operands have values. */
  function Present(ns: seq<Option<int>>): (r: Option<seq<int>>)
    ensures r.Some? ==> |r.value| == |ns|
    decreases ns
  {
    if ns == [] then Some([])
    else if ns[0].None? then None
    else
      match Present(ns[1..])
      case None => None
      case Some(xs) => Some([ns[0].value] + xs)
  }

  /** The function that a call enters, with its arguments: a declared one with as many parameters. */
  function Entered(p: Program, f: string, ns: seq<Option<int>>): (r: Option<(nat, seq<int>)>)
    ensures r.Some? ==> r.value.0 < |p.functions| && |r.value.1| == |p.functions[r.value.0].params|
  {
    var i, args := Named(p.functions, f), Present(ns);
    if i.Some? && args.Some? && |args.value| == |p.functions[i.value].params| then Some((i.value, args.value)) else None
  }

  /** The first function of that name is entered, if every argument has a value and there are as many as parameters. */
  lemma {:induction false} EnteredExactly(p: Program, f: string, ns: seq<Option<int>>, i: nat, args: seq<int>)
    ensures Entered(p, f, ns) == Some((i, args)) <==>
      && i < |p.functions| && p.functions[i].name == f && (forall j | 0 <= j < i :: p.functions[j].name != f)
      && |ns| == |args| == |p.functions[i].params| && forall j | 0 <= j < |ns| :: ns[j] == Some(args[j])
  {
    NamedExactly(p.functions, f, i);
    PresentExactly(ns, args);
  }

  lemma {:induction false} NamedExactly(fs: seq<Function>, f: string, i: nat)
    ensures Named(fs, f) == Some(i) <==> i < |fs| && fs[i].name == f && forall j | 0 <= j < i :: fs[j].name != f
    decreases fs
  {
    if fs == [] {
    } else if fs[0].name == f {
      assert i > 0 && i < |fs| ==> fs[0].name == f;
    } else if i > 0 {
      NamedExactly(fs[1..], f, i - 1);
      assert i < |fs| ==> fs[1..][i - 1] == fs[i];
      assert forall j | 0 < j < i && j < |fs| :: fs[1..][j - 1] == fs[j];
      assert forall j | 0 <= j < i - 1 && j < |fs[1..]| :: fs[1..][j] == fs[j + 1];
    }
  }

  lemma {:induction false} PresentExactly(ns: seq<Option<int>>, args: seq<int>)
    ensures Present(ns) == Some(args) <==> |ns| == |args| && forall j | 0 <= j < |ns| :: ns[j] == Some(args[j])
    decreases ns
  {
    if ns == [] {
    } else if args != [] {
      PresentExactly(ns[1..], args[1..]);
      assert args == [args[0]] + args[1..];
      assert forall j | 0 <= j < |ns| - 1 && j < |args| - 1 :: ns[1..][j] == ns[j + 1] && args[1..][j] == args[j + 1];
      assert forall j | 0 < j < |ns| && j < |args| :: ns[1..][j - 1] == ns[j] && args[1..][j - 1] == args[j];
    }
  }

  function Value0(v: Option<int>): int {
    if v.Some? then v.value else 0
  }

  // ----- two worlds -----

  /** Executing the function returns with this answer. */
  ghost predicate SourceReturns(
      p: Program, w: World, i: nat, args: seq<int>, g: Globals, trace: seq<Event>, v: Option<int>, g': Globals,
      trace': seq<Event>)
    requires i < |p.functions| && |args| == |p.functions[i].params|
  {
    Returns(Context(p.globals, p.voids, w), p.functions[i], args, g, trace, v, g', trace')
  }

  /** Running its code finishes with this answer. */
  ghost predicate CodeReturns(
      p: Program, w: World, i: nat, args: seq<int>, g: Globals, trace: seq<Event>, v: Option<int>, g': Globals,
      trace': seq<Event>)
    requires i < |p.functions|
  {
    Finishes(Machine(CodeFor(p, i), args, w), g, trace, v, g', trace')
  }

  /** Calls execute the source of the callee, at most `depth` calls inside one another. */
  ghost function SourceWorld(p: Program, depth: nat): World
    decreases depth, 1
  {
    World(p.op, (trace, g, f, ns) => SourceAnswer(p, depth, trace, g, f, ns))
  }

  ghost function SourceAnswer(
      p: Program, depth: nat, trace: seq<Event>, g: Globals, f: string, ns: seq<Option<int>>): Answer
    decreases depth, 0
  {
    var e := Entered(p, f, ns);
    if e.None? then OutsideAnswer(p, trace, g, f, ns)
    else if depth == 0 then NoAnswer(trace, g)
    else
      var (i, args) := e.value;
      var w := SourceWorld(p, depth - 1);
      if exists v, g', trace' :: SourceReturns(p, w, i, args, g, trace, v, g', trace') then
        var v, g', trace' :| SourceReturns(p, w, i, args, g, trace, v, g', trace');
        Answer(if v.Some? then v.value else 0, g', trace')
      else NoAnswer(trace, g)
  }

  /** Calls run the lowered code of the callee. */
  ghost function CodeWorld(p: Program, depth: nat): World
    decreases depth, 1
  {
    World(p.op, (trace, g, f, ns) => CodeAnswer(p, depth, trace, g, f, ns))
  }

  ghost function CodeAnswer(
      p: Program, depth: nat, trace: seq<Event>, g: Globals, f: string, ns: seq<Option<int>>): Answer
    decreases depth, 0
  {
    var e := Entered(p, f, ns);
    if e.None? then OutsideAnswer(p, trace, g, f, ns)
    else if depth == 0 then NoAnswer(trace, g)
    else
      var (i, args) := e.value;
      var w := CodeWorld(p, depth - 1);
      if exists v, g', trace' :: CodeReturns(p, w, i, args, g, trace, v, g', trace') then
        var v, g', trace' :| CodeReturns(p, w, i, args, g, trace, v, g', trace');
        Answer(Value0(v), g', trace')
      else NoAnswer(trace, g)
  }

  // ----- worlds that answer alike -----

  ghost predicate AnswersAlike(w: World, w': World, trace: seq<Event>, g: Globals, f: string, ns: seq<Option<int>>) {
    w.call(trace, g, f, ns) == w'.call(trace, g, f, ns)
  }

  ghost predicate Alike(w: World, w': World) {
    w.op == w'.op && forall trace, g, f, ns :: AnswersAlike(w, w', trace, g, f, ns)
  }

  lemma {:induction false} NumbersAlike(m: Machine, m': Machine, mem: Memory, os: seq<Option<Operand>>)
    requires m.args == m'.args
    ensures Numbers(m, mem, os) == Numbers(m', mem, os)
    decreases os
  {
    if os == [] {
    } else {
      NumbersAlike(m, m', mem, os[1..]);
    }
  }

  /** An instruction does the same if the call that it makes, if any, is answered alike. */
  lemma {:induction false} PerformAlike(m: Machine, m': Machine, i: Instr, b: nat, p: nat, mem: Memory)
    requires m.args == m'.args && m.world.op == m'.world.op
    requires i.CallFn? && Numbers(m, mem, i.args).Some? ==>
      var ns := Numbers(m, mem, i.args).value;
      AnswersAlike(m.world, m'.world, mem.trace + [Event(i.callee, ns)], mem.globals, i.callee, ns)
    ensures Perform(m, i, b, p, mem) == Perform(m', i, b, p, mem)
  {
    if i.CallFn? {
      NumbersAlike(m, m', mem, i.args);
    }
  }

  /** Only the answers matter to a run. */
  lemma {:induction false} RunAlike(m: Machine, m': Machine, start: Config, n: nat)
    requires m.code == m'.code && m.args == m'.args && Alike(m.world, m'.world)
    ensures Run(m, start, n) == Run(m', start, n)
    decreases n
  {
    if n == 0 {
    } else {
      if start.At? && start.block < |m.code| && start.pos < |m.code[start.block]| {
        PerformAlike(m, m', m.code[start.block][start.pos], start.block, start.pos, start.mem);
      }
      RunAlike(m, m', Step(m, start), n - 1);
    }
  }

  // ----- main results -----

  /** Whatever answers the calls inside it: the code of a function finishes exactly as its source does. */
  lemma {:induction false} FunctionExact(
      p: Program, w: World, i: nat, args: seq<int>, g: Globals, trace: seq<Event>, v: Option<int>, g': Globals,
      trace': seq<Event>)
    requires Lowerable(p) && i < |p.functions| && |args| == |p.functions[i].params|
    ensures CodeReturns(p, w, i, args, g, trace, v, g', trace') <==>
      SourceReturns(p, w, i, args, g, trace, v, g', trace')
  {
    var c := Context(p.globals, p.voids, w);
    var m := Machine(CodeFor(p, i), args, w);
    GlobalTableOk(p.globals, 1);
    SameFaithful(Context(p.globals, p.voids, OutsideWorld(p)), c, p.globals, p.functions);
    ProgramExact(c, p.globals, p.functions, GlobalTable(p.globals), 1, i, args, g, trace, v, g', trace');
  }

  /** The condition on a program does not speak of the world. */
  lemma {:induction false} SameFaithful(c: Context, c': Context, known: set<string>, fs: seq<Function>)
    requires c.voids == c'.voids && ProgramFaithful(c, known, fs)
    ensures ProgramFaithful(c', known, fs)
    decreases fs
  {
    if fs == [] {
    } else {
      SameFaithful(c, c', known - Declares(fs[0]), fs[1..]);
    }
  }

  /** At every depth both worlds give the same answers: by the depth of the calls. */
  lemma {:induction false} WorldsAlike(p: Program, depth: nat)
    requires Lowerable(p)
    ensures Alike(CodeWorld(p, depth), SourceWorld(p, depth))
    decreases depth
  {
    forall trace, g, f, ns
      ensures AnswersAlike(CodeWorld(p, depth), SourceWorld(p, depth), trace, g, f, ns)
    {
      AnswersSame(p, depth, trace, g, f, ns);
    }
  }

  lemma {:induction false} AnswersSame(
      p: Program, depth: nat, trace: seq<Event>, g: Globals, f: string, ns: seq<Option<int>>)
    requires Lowerable(p)
    ensures CodeAnswer(p, depth, trace, g, f, ns) == SourceAnswer(p, depth, trace, g, f, ns)
    decreases depth, 0
  {
    var e := Entered(p, f, ns);
    if depth > 0 && e.Some? {
      var (i, args) := e.value;
      var w, w' := CodeWorld(p, depth - 1), SourceWorld(p, depth - 1);
      WorldsAlike(p, depth - 1);
      forall v, g', trace'
        ensures CodeReturns(p, w, i, args, g, trace, v, g', trace') <==>
          SourceReturns(p, w', i, args, g, trace, v, g', trace')
      {
        CodeReturnsAlike(p, w, w', i, args, g, trace, v, g', trace');
        FunctionExact(p, w', i, args, g, trace, v, g', trace');
      }
      CodeAnswersOnce(p, w, i, args, g, trace);
    }
  }

  lemma {:induction false} CodeReturnsAlike(
      p: Program, w: World, w': World, i: nat, args: seq<int>, g: Globals, trace: seq<Event>, v: Option<int>,
      g': Globals, trace': seq<Event>)
    requires i < |p.functions| && |args| == |p.functions[i].params| && Alike(w, w')
    ensures CodeReturns(p, w, i, args, g, trace, v, g', trace') <==>
      CodeReturns(p, w', i, args, g, trace, v, g', trace')
  {
    forall n: nat
      ensures Run(Machine(CodeFor(p, i), args, w), Start(g, trace), n) ==
        Run(Machine(CodeFor(p, i), args, w'), Start(g, trace), n)
    {
      RunAlike(Machine(CodeFor(p, i), args, w), Machine(CodeFor(p, i), args, w'), Start(g, trace), n);
    }
  }

  /** A run has one answer at most. */
  lemma {:induction false} CodeAnswersOnce(p: Program, w: World, i: nat, args: seq<int>, g: Globals, trace: seq<Event>)
    requires i < |p.functions| && |args| == |p.functions[i].params|
    ensures forall v, g', trace', u, h, t ::
      CodeReturns(p, w, i, args, g, trace, v, g', trace') && CodeReturns(p, w, i, args, g, trace, u, h, t) ==>
        v == u && g' == h && trace' == t
  {
    var m := Machine(CodeFor(p, i), args, w);
    forall v, g', trace', u, h, t |
      CodeReturns(p, w, i, args, g, trace, v, g', trace') && CodeReturns(p, w, i, args, g, trace, u, h, t)
      ensures v == u && g' == h && trace' == t
    {
      var j: nat :| Run(m, Start(g, trace), j) == Done(v, g', trace');
      var k: nat :| Run(m, Start(g, trace), k) == Done(u, h, t);
      RunDeterministic(m, Start(g, trace), j, k);
    }
  }

  /** A program whose calls run lowered code finishes exactly as the program whose calls execute the source:
      same result, same globals, same calls at every level, in the same order. */
  lemma {:induction false} LinkedExact(
      p: Program, depth: nat, i: nat, args: seq<int>, g: Globals, trace: seq<Event>, v: Option<int>, g': Globals,
      trace': seq<Event>)
    requires Lowerable(p) && i < |p.functions| && |args| == |p.functions[i].params|
    ensures CodeReturns(p, CodeWorld(p, depth), i, args, g, trace, v, g', trace') <==>
            SourceReturns(p, SourceWorld(p, depth), i, args, g, trace, v, g', trace')
  {
    WorldsAlike(p, depth);
    CodeReturnsAlike(p, CodeWorld(p, depth), SourceWorld(p, depth), i, args, g, trace, v, g', trace');
    FunctionExact(p, SourceWorld(p, depth), i, args, g, trace, v, g', trace');
  }
}
