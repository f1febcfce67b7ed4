/** A machine that keeps its calls on a stack. */
module CallStack {
  import opened Wrappers
  import opened Slices
  import opened Ir
  import opened Source
  import opened Preservation
  import opened Linked
  import Compiled

  // ----- the machine -----

  /** A function in the middle of its code. */
  datatype Frame = Frame(index: nat, args: seq<int>, block: nat, pos: nat, mem: Memory)

  /** The innermost call comes first. */
  datatype Stack =
    | Running(frames: seq<Frame>)
    | Finished(result: Option<int>, globals: Globals, trace: seq<Event>)
    | Broken

  /** A call that enters a function of the program. */
  datatype Entry = Entry(callee: string, numbers: seq<Option<int>>, index: nat, args: seq<int>)

  function CodeAt(p: Program, i: nat): Code {
    if i < |p.functions| then CodeFor(p, i) else []
  }

  /** The function of the frame, with the calls answered by `w`. */
  function MachineOf(p: Program, f: Frame, w: World): Machine {
    Machine(CodeAt(p, f.index), f.args, w)
  }

  function Spot(f: Frame): Config {
    At(f.block, f.pos, f.mem)
  }

  function Enter(e: Entry, g: Globals, trace: seq<Event>): Frame {
    Frame(e.index, e.args, 0, 0, EMPTY_MEMORY.(globals := g, trace := trace))
  }

  function Instruction(p: Program, f: Frame): Option<Instr> {
    var code := CodeAt(p, f.index);
    if f.block < |code| && f.pos < |code[f.block]| then Some(code[f.block][f.pos]) else None
  }

  function Entering(p: Program, f: Frame): (r: Option<Entry>)
    ensures r.Some? ==> Instruction(p, f).Some? && Instruction(p, f).value.CallFn?
    ensures r.Some? ==> r.value.index < |p.functions| && |r.value.args| == |p.functions[r.value.index].params|
    ensures r.Some? ==> Entered(p, r.value.callee, r.value.numbers) == Some((r.value.index, r.value.args))
  {
    match Instruction(p, f)
    case Some(CallFn(_, callee, os)) =>
      (match Numbers(MachineOf(p, f, OutsideWorld(p)), f.mem, os)
       case None => None
       case Some(ns) =>
         match Entered(p, callee, ns)
         case None => None
         case Some((index, args)) => Some(Entry(callee, ns, index, args)))
    case _ => None
  }

  /** The calls up to and with the one that is entered. */
  function CallsUpTo(f: Frame, e: Entry): seq<Event> {
    f.mem.trace + [Event(e.callee, e.numbers)]
  }

  /** What the innermost function does next. */
  datatype Turn =
    | Enters(entry: Entry)
    | Goes(next: Frame)
    | Ends(result: Option<int>, globals: Globals, trace: seq<Event>)
    | Breaks

  function TurnOf(p: Program, f: Frame): Turn {
    match Entering(p, f)
    case Some(e) => Enters(e)
    case None =>
      match Step(MachineOf(p, f, OutsideWorld(p)), Spot(f))
      case At(b, q, mem) => Goes(f.(block := b, pos := q, mem := mem))
      case Done(v, g, trace) => Ends(v, g, trace)
      case Stuck => Breaks
  }

  /** The caller goes on behind its call. */
  function Resume(p: Program, f: Frame, n: int, g: Globals, trace: seq<Event>): Frame {
    var mem := f.mem.(globals := g, trace := trace);
    match Instruction(p, f)
    case Some(CallFn(Some(t), _, _)) => f.(pos := f.pos + 1, mem := SetReg(mem, t, Int(n)))
    case _ => f.(pos := f.pos + 1, mem := mem)
  }

  function Leave(p: Program, callers: seq<Frame>, v: Option<int>, g: Globals, trace: seq<Event>): Stack {
    if callers == [] then Finished(v, g, trace) else Running([Resume(p, callers[0], Value0(v), g, trace)]
      + callers[1..])
  }

  function StackStep(p: Program, s: Stack): Stack {
    if !s.Running? || s.frames == [] then s
    else
      var f, callers := s.frames[0], s.frames[1..];
      match TurnOf(p, f)
      case Enters(e) => Running([Enter(e, f.mem.globals, CallsUpTo(f, e))] + s.frames)
      case Goes(next) => Running([next] + callers)
      case Ends(v, g, trace) => Leave(p, callers, v, g, trace)
      case Breaks => Broken
  }

  function StackRun(p: Program, s: Stack, n: nat): Stack
    decreases n
  {
    if n == 0 then s else StackRun(p, StackStep(p, s), n - 1)
  }

  /** Function `i` alone on the stack. */
  function Call(i: nat, args: seq<int>, g: Globals, trace: seq<Event>): Frame {
    Frame(i, args, 0, 0, EMPTY_MEMORY.(globals := g, trace := trace))
  }

  // ----- runs, under seals -----

  ghost predicate Steps(m: Machine, c: Config, c': Config) {
    forall z {:trigger Unseal(z)} :: Unseal(z) ==> Step(m, c) == c'
  }

  ghost predicate Runs(m: Machine, c: Config, n: nat, c': Config) {
    forall z {:trigger Unseal(z)} :: Unseal(z) ==> Run(m, c, n) == c'
  }

  /** The stack is under a seal of its own. */
  predicate Unstack(k: int) {
    true
  }

  ghost predicate Leads(p: Program, s: Stack, n: nat, s': Stack) {
    forall z {:trigger Unstack(z)} :: Unstack(z) ==> StackRun(p, s, n) == s'
  }

  /** What the stack is when its innermost function has returned. */
  ghost predicate Left(p: Program, callers: seq<Frame>, v: Option<int>, g: Globals, trace: seq<Event>, s: Stack) {
    forall z {:trigger Unseal(z)} :: Unseal(z) ==> Leave(p, callers, v, g, trace) == s
  }

  /** How the caller goes on. */
  ghost predicate Back(p: Program, f: Frame, n: int, g: Globals, trace: seq<Event>, f1: Frame) {
    forall z {:trigger Unseal(z)} :: Unseal(z) ==> Resume(p, f, n, g, trace) == f1
  }

  lemma {:induction false} LeaveTo(p: Program, callers: seq<Frame>, v: Option<int>, g: Globals, trace: seq<Event>)
      returns (s: Stack)
    ensures Left(p, callers, v, g, trace, s)
    ensures callers == [] ==> s == Finished(v, g, trace)
  {
    s := Leave(p, callers, v, g, trace);
  }

  lemma {:induction false} LeftOnce(
      p: Program, callers: seq<Frame>, v: Option<int>, g: Globals, trace: seq<Event>, a: Stack, b: Stack)
    requires Left(p, callers, v, g, trace, a) && Left(p, callers, v, g, trace, b)
    ensures a == b
  {
    assert Unseal(0);
  }

  lemma {:induction false} LeftBack(
      p: Program, f: Frame, callers: seq<Frame>, v: Option<int>, g: Globals, trace: seq<Event>, f1: Frame)
    requires Back(p, f, Value0(v), g, trace, f1)
    ensures Left(p, [f] + callers, v, g, trace, Running([f1] + callers))
  {
    assert Unseal(0);
    assert ([f] + callers)[0] == f && ([f] + callers)[1..] == callers;
  }

  lemma {:induction false} RunsTail(m: Machine, c: Config, c1: Config, n: nat, last: Config)
    requires Steps(m, c, c1) && Runs(m, c, n, last) && c.At? && !last.At?
    ensures n > 0 && Runs(m, c1, n - 1, last)
    ensures !c1.At? ==> c1 == last
  {
    assert Unseal(0);
    if !c1.At? {
      RunHalted(m, c1, n - 1);
    }
  }

  lemma {:induction false} RunsMore(m: Machine, start: Config, k: nat, c: Config, c1: Config)
    requires Runs(m, start, k, c) && Steps(m, c, c1)
    ensures Runs(m, start, k + 1, c1)
  {
    assert Unseal(0);
    RunAdd(m, start, k, 1);
    assert Run(m, c, 1) == Run(m, Step(m, c), 0);
  }

  lemma {:induction false} StackRunAdd(p: Program, s: Stack, j: nat, k: nat)
    ensures StackRun(p, s, j + k) == StackRun(p, StackRun(p, s, j), k)
    decreases j
  {
    if j == 0 {
    } else {
      StackRunAdd(p, StackStep(p, s), j - 1, k);
    }
  }

  lemma {:induction false} LeadsOn(p: Program, a: Stack, j: nat, b: Stack, k: nat, c: Stack)
    requires Leads(p, a, j, b) && Leads(p, b, k, c)
    ensures Leads(p, a, j + k, c)
  {
    assert Unstack(0);
    StackRunAdd(p, a, j, k);
  }

  lemma {:induction false} LeadsRest(p: Program, a: Stack, j: nat, b: Stack, n: nat, c: Stack)
    requires Leads(p, a, j, b) && Leads(p, a, n, c) && j <= n
    ensures Leads(p, b, n - j, c)
  {
    assert Unstack(0);
    StackRunAdd(p, a, j, n - j);
  }

  lemma {:induction false} LeadsNowhere(p: Program, s: Stack, n: nat, s': Stack)
    requires Leads(p, s, n, s') && s.Running? && !s'.Running?
    ensures n > 0
  {
    assert Unstack(0);
  }

  lemma {:induction false} LeadsFinally(p: Program, s: Stack, n: nat, s': Stack)
    requires Leads(p, s, n, s') && !s.Running?
    ensures s' == s
    decreases n
  {
    assert Unstack(0);
    if n == 0 {
    } else {
      assert Leads(p, s, n - 1, s');
      LeadsFinally(p, s, n - 1, s');
    }
  }

  // ----- one turn -----

  /** Calls that enter no function of the program are answered alike. */
  lemma {:induction false} StepOutside(p: Program, f: Frame, depth: nat)
    requires Entering(p, f).None?
    ensures Step(MachineOf(p, f, CodeWorld(p, depth)), Spot(f)) == Step(MachineOf(p, f, OutsideWorld(p)), Spot(f))
  {
    var m, m' := MachineOf(p, f, CodeWorld(p, depth)), MachineOf(p, f, OutsideWorld(p));
    if Instruction(p, f).Some? {
      var i := Instruction(p, f).value;
      if i.CallFn? {
        NumbersAlike(m, m', f.mem, i.args);
      }
      PerformAlike(m, m', i, f.block, f.pos, f.mem);
    }
  }

  ghost predicate Taking(p: Program, f: Frame, turn: Turn) {
    forall z {:trigger Unseal(z)} :: Unseal(z) ==> TurnOf(p, f) == turn
  }

  lemma {:induction false} TakeTurn(p: Program, f: Frame) returns (turn: Turn)
    ensures Taking(p, f, turn)
    ensures turn.Enters? ==>
      var e := turn.entry;
      && e.index < |p.functions| && |e.args| == |p.functions[e.index].params|
      && Enterable(p, e)
  {
    turn := TurnOf(p, f);
  }

  function StackAfter(p: Program, f: Frame, callers: seq<Frame>, turn: Turn): Stack {
    match turn
    case Enters(e) => Running([Enter(e, f.mem.globals, CallsUpTo(f, e))] + ([f] + callers))
    case Goes(next) => Running([next] + callers)
    case Ends(v, g, trace) => Leave(p, callers, v, g, trace)
    case Breaks => Broken
  }

  lemma {:induction false} StackTakes(p: Program, f: Frame, callers: seq<Frame>, turn: Turn)
    requires Taking(p, f, turn)
    ensures Leads(p, Running([f] + callers), 1, StackAfter(p, f, callers, turn))
  {
    assert Unseal(0);
    var s := Running([f] + callers);
    assert s.frames[0] == f && s.frames[1..] == callers;
    assert StackRun(p, s, 1) == StackRun(p, StackStep(p, s), 0);
  }

  function SpotAfter(turn: Turn): Config
    requires !turn.Enters?
  {
    match turn
    case Goes(next) => Spot(next)
    case Ends(v, g, trace) => Done(v, g, trace)
    case Breaks => Stuck
  }

  /** The program can be lowered: under a seal, because the proofs about the stack need it only where a
      function could break. */
  ghost predicate Sound(p: Program) {
    forall z {:trigger Unseal(z)} :: Unseal(z) ==> Lowerable(p)
  }

  /** The entry is what the call enters. */
  ghost predicate Enterable(p: Program, e: Entry) {
    forall z {:trigger Unseal(z)} :: Unseal(z) ==> Entered(p, e.callee, e.numbers) == Some((e.index, e.args))
  }

  /** The code of function `i` with these arguments, its calls run at this depth. */
  ghost predicate Of(p: Program, i: nat, args: seq<int>, depth: nat, m: Machine) {
    forall z {:trigger Unseal(z)} :: Unseal(z) ==> m == Machine(CodeAt(p, i), args, CodeWorld(p, depth))
  }

  lemma {:induction false} MachineFor(p: Program, i: nat, args: seq<int>, depth: nat) returns (m: Machine)
    ensures Of(p, i, args, depth, m)
  {
    m := Machine(CodeAt(p, i), args, CodeWorld(p, depth));
  }

  lemma {:induction false} CodeTakes(p: Program, f: Frame, turn: Turn, depth: nat, m: Machine)
    requires Of(p, f.index, f.args, depth, m)
    requires Taking(p, f, turn) && !turn.Enters?
    ensures Steps(m, Spot(f), SpotAfter(turn))
    ensures turn.Goes? ==> turn.next.index == f.index && turn.next.args == f.args
  {
    assert Unseal(0);
    StepOutside(p, f, depth);
  }

  lemma {:induction false} TurnMarksNothing(p: Program, f: Frame, turn: Turn)
    requires Taking(p, f, turn) && !turn.Enters? && Unanswered !in f.mem.trace
    ensures Unanswered !in TraceOf(SpotAfter(turn))
  {
    assert Unseal(0);
    StepMarksNothing(MachineOf(p, f, OutsideWorld(p)), Spot(f));
  }

  /** A step adds marks only through an answer. */
  lemma {:induction false} StepMarksNothing(m: Machine, c: Config)
    requires forall trace, g, f, ns :: m.world.call(trace, g, f, ns).trace == trace
    requires c.At? && Unanswered !in TraceOf(c)
    ensures Unanswered !in TraceOf(Step(m, c))
  {
  }

  /** The turn of a function that goes on. */
  lemma {:induction false} TurnGoes(p: Program, f: Frame, next: Frame, callers: seq<Frame>, depth: nat, m: Machine)
    requires Of(p, f.index, f.args, depth, m)
    requires Taking(p, f, Goes(next))
    ensures Leads(p, Running([f] + callers), 1, Running([next] + callers))
    ensures Steps(m, Spot(f), Spot(next))
    ensures next.index == f.index && next.args == f.args
    ensures Unanswered !in f.mem.trace ==> Unanswered !in next.mem.trace
  {
    StackTakes(p, f, callers, Goes(next));
    CodeTakes(p, f, Goes(next), depth, m);
    if Unanswered !in f.mem.trace {
      TurnMarksNothing(p, f, Goes(next));
    }
  }

  /** The turn of a function that ends. */
  lemma {:induction false} TurnEnds(
      p: Program, f: Frame, v: Option<int>, g: Globals, trace: seq<Event>, callers: seq<Frame>, depth: nat, m: Machine,
      after: Stack)
    requires Of(p, f.index, f.args, depth, m)
    requires Taking(p, f, Ends(v, g, trace)) && Left(p, callers, v, g, trace, after)
    ensures Leads(p, Running([f] + callers), 1, after)
    ensures Steps(m, Spot(f), Done(v, g, trace))
    ensures Unanswered !in f.mem.trace ==> Unanswered !in trace
  {
    StackTakes(p, f, callers, Ends(v, g, trace));
    assert Unseal(0);
    assert Unstack(0);
    CodeTakes(p, f, Ends(v, g, trace), depth, m);
    if Unanswered !in f.mem.trace {
      TurnMarksNothing(p, f, Ends(v, g, trace));
    }
  }

  lemma {:induction false} TurnDone(
      p: Program, f: Frame, v: Option<int>, g: Globals, trace: seq<Event>, depth: nat, m: Machine)
    requires Of(p, f.index, f.args, depth, m) && Taking(p, f, Ends(v, g, trace))
    ensures Steps(m, Spot(f), Done(v, g, trace))
  {
    CodeTakes(p, f, Ends(v, g, trace), depth, m);
  }

  lemma {:induction false} TurnBreaks(p: Program, f: Frame, depth: nat, m: Machine)
    requires Of(p, f.index, f.args, depth, m)
    requires Taking(p, f, Breaks)
    ensures Steps(m, Spot(f), Stuck)
  {
    CodeTakes(p, f, Breaks, depth, m);
  }

  /** The turn of a function that calls another one. */
  lemma {:induction false} TurnEnters(p: Program, f: Frame, e: Entry, callers: seq<Frame>)
    requires Taking(p, f, Enters(e))
    ensures Leads(p, Running([f] + callers), 1, Running([Enter(e, f.mem.globals, CallsUpTo(f, e))] + ([f] + callers)))
  {
    StackTakes(p, f, callers, Enters(e));
  }

  /** What the call is answered at this depth. */
  ghost predicate Answers(p: Program, depth: nat, e: Entry, g: Globals, trace: seq<Event>, a: Answer) {
    forall z {:trigger Unseal(z)} :: Unseal(z) ==> CodeAnswer(p, depth, trace, g, e.callee, e.numbers) == a
  }

  lemma {:induction false} AnswerTo(p: Program, depth: nat, e: Entry, g: Globals, trace: seq<Event>) returns (a: Answer)
    ensures Answers(p, depth, e, g, trace, a)
  {
    a := CodeAnswer(p, depth, trace, g, e.callee, e.numbers);
  }

  /** A call goes on where the answer of the callee leaves off. */
  lemma {:induction false} CodeEnters(
      p: Program, f: Frame, e: Entry, depth: nat, m: Machine, n: int, g: Globals, trace: seq<Event>)
      returns (f1: Frame)
    requires Of(p, f.index, f.args, depth, m) && Taking(p, f, Enters(e))
    requires Answers(p, depth, e, f.mem.globals, CallsUpTo(f, e), Answer(n, g, trace))
    ensures Steps(m, Spot(f), Spot(f1)) && Back(p, f, n, g, trace, f1)
    ensures f1.index == f.index && f1.args == f.args && f1.mem.trace == trace
  {
    assert Unseal(0);
    f1 := Resume(p, f, n, g, trace);
    var i := Instruction(p, f).value;
    NumbersAlike(m, MachineOf(p, f, OutsideWorld(p)), f.mem, i.args);
  }

  /** What the callee returns is what the world answers. */
  lemma {:induction false} Answered(
      p: Program, depth: nat, e: Entry, g: Globals, trace: seq<Event>, v: Option<int>, g': Globals, trace': seq<Event>)
    requires e.index < |p.functions| && Enterable(p, e) && depth > 0
    requires CodeReturns(p, CodeWorld(p, depth - 1), e.index, e.args, g, trace, v, g', trace')
    ensures Answers(p, depth, e, g, trace, Answer(Value0(v), g', trace'))
  {
    assert Unseal(0);
    CodeAnswersOnce(p, CodeWorld(p, depth - 1), e.index, e.args, g, trace);
  }

  // ----- marks stay in the trace -----

  ghost predicate KeepsMark(w: World, trace: seq<Event>, g: Globals, f: string, ns: seq<Option<int>>) {
    Unanswered in trace ==> Unanswered in w.call(trace, g, f, ns).trace
  }

  ghost predicate KeepsMarks(w: World) {
    forall trace, g, f, ns :: KeepsMark(w, trace, g, f, ns)
  }

  function TraceOf(c: Config): seq<Event> {
    match c
    case At(_, _, mem) => mem.trace
    case Done(_, _, trace) => trace
    case Stuck => []
  }

  lemma {:induction false} StepKeepsMark(m: Machine, c: Config)
    requires KeepsMarks(m.world) && c.At? && Unanswered in TraceOf(c)
    ensures var c' := Step(m, c); c'.Stuck? || Unanswered in TraceOf(c')
  {
    if c.block < |m.code| && c.pos < |m.code[c.block]| {
      match m.code[c.block][c.pos]
      case CallFn(t, f, os) =>
        var ns := Numbers(m, c.mem, os);
        if ns.Some? {
          assert KeepsMark(m.world, c.mem.trace + [Event(f, ns.value)], c.mem.globals, f, ns.value);
        }
      case _ =>
    }
  }

  lemma {:induction false} RunKeepsMark(m: Machine, c: Config, n: nat)
    requires KeepsMarks(m.world) && !c.Stuck? && Unanswered in TraceOf(c)
    ensures var c' := Run(m, c, n); c'.Stuck? || Unanswered in TraceOf(c')
    decreases n
  {
    if n == 0 {
    } else if !c.At? {
      RunHalted(m, c, n);
    } else {
      StepKeepsMark(m, c);
      if Step(m, c).Stuck? {
        RunHalted(m, Stuck, n - 1);
      } else {
        RunKeepsMark(m, Step(m, c), n - 1);
      }
    }
  }

  lemma {:induction false} CodeKeepsMarks(p: Program, depth: nat)
    ensures KeepsMarks(CodeWorld(p, depth))
    decreases depth
  {
    forall trace, g, f, ns
      ensures KeepsMark(CodeWorld(p, depth), trace, g, f, ns)
    {
      var e := Entered(p, f, ns);
      if Unanswered in trace && depth > 0 && e.Some? {
        var (i, args) := e.value;
        var w := CodeWorld(p, depth - 1);
        CodeKeepsMarks(p, depth - 1);
        forall v, g', trace' | CodeReturns(p, w, i, args, g, trace, v, g', trace')
          ensures Unanswered in trace'
        {
          var n: nat :| Run(Machine(CodeFor(p, i), args, w), Start(g, trace), n) == Done(v, g', trace');
          RunKeepsMark(Machine(CodeFor(p, i), args, w), Start(g, trace), n);
        }
      }
    }
  }
  // ----- from nested runs to the stack -----

  /** A call whose answer bears no mark has been answered by the code of its function. */
  lemma {:induction false} MarkOrCode(p: Program, depth: nat, e: Entry, g: Globals, trace: seq<Event>, a: Answer)
      returns (m: Machine, n: nat, v: Option<int>, g': Globals, trace': seq<Event>)
    requires e.index < |p.functions| && Enterable(p, e)
    requires Answers(p, depth, e, g, trace, a) && Unanswered !in a.trace
    ensures depth > 0 && Of(p, e.index, e.args, depth - 1, m)
    ensures Runs(m, Spot(Enter(e, g, trace)), n,
      Done(v, g', trace'))
    ensures a == Answer(Value0(v), g', trace')
  {
    assert Unseal(0);
    assert depth > 0;
    var w := CodeWorld(p, depth - 1);
    assert exists v, g', trace' :: CodeReturns(p, w, e.index, e.args, g, trace, v, g', trace');
    v, g', trace' :| CodeReturns(p, w, e.index, e.args, g, trace, v, g', trace');
    Answered(p, depth, e, g, trace, v, g', trace');
    m := Machine(CodeFor(p, e.index), e.args, w);
    n :| Run(m, Start(g, trace), n) == Done(v, g', trace');
  }

  lemma {:induction false} UnmarkedBefore(p: Program, depth: nat, m: Machine, f: Frame, c: Config, n: nat, last: Config)
    requires Of(p, f.index, f.args, depth, m)
    requires Runs(m, c, n, last) && last.Done? && !c.Stuck?
    requires Unanswered !in TraceOf(last)
    ensures Unanswered !in TraceOf(c)
  {
    assert Unseal(0);
    CodeKeepsMarks(p, depth);
    if Unanswered in TraceOf(c) {
      RunKeepsMark(m, c, n);
    }
  }

  /** A function that finishes, with every call answered, finishes on the stack, and its caller goes on. */
  lemma {:induction false} NestedToStack(
      p: Program, depth: nat, m: Machine, f: Frame, n: nat, callers: seq<Frame>, v: Option<int>, g': Globals,
      trace': seq<Event>, after: Stack)
      returns (k: nat)
    requires Of(p, f.index, f.args, depth, m)
    requires Runs(m, Spot(f), n, Done(v, g', trace')) && Unanswered !in trace'
    requires Left(p, callers, v, g', trace', after)
    ensures Leads(p, Running([f] + callers), k, after)
    decreases depth, n, 1
  {
    var turn := TakeTurn(p, f);
    var s, end := Running([f] + callers), Done(v, g', trace');
    match turn
    case Enters(e) =>
      var f1, j := CallToStack(p, depth, m, f, e, n, callers, v, g', trace');
      var k1 := NestedToStack(p, depth, m, f1, n - 1, callers, v, g', trace', after);
      LeadsOn(p, s, j, Running([f1] + callers), k1, after);
      k := j + k1;
      assert Leads(p, s, k, after);
    case Goes(next) =>
      k := GoesToStack(p, depth, m, f, next, n, callers, v, g', trace', after);
    case Ends(u, h, t) =>
      TurnDone(p, f, u, h, t, depth, m);
      RunsTail(m, Spot(f), Done(u, h, t), n, end);
      TurnEnds(p, f, v, g', trace', callers, depth, m, after);
      k := 1;
    case Breaks =>
      k := 0;
      TurnBreaks(p, f, depth, m);
      RunsTail(m, Spot(f), Stuck, n, end);
  }

  lemma {:induction false} GoesTail(
      p: Program, depth: nat, m: Machine, f: Frame, next: Frame, n: nat, callers: seq<Frame>, last: Config)
    requires Of(p, f.index, f.args, depth, m) && Taking(p, f, Goes(next))
    requires Runs(m, Spot(f), n, last) && last.Done?
    ensures n > 0 && Runs(m, Spot(next), n - 1, last) && Of(p, next.index, next.args, depth, m)
    ensures Leads(p, Running([f] + callers), 1, Running([next] + callers))
  {
    TurnGoes(p, f, next, callers, depth, m);
    RunsTail(m, Spot(f), Spot(next), n, last);
  }

  lemma {:induction false} GoesToStack(
      p: Program, depth: nat, m: Machine, f: Frame, next: Frame, n: nat, callers: seq<Frame>, v: Option<int>,
      g': Globals, trace': seq<Event>, after: Stack)
      returns (k: nat)
    requires Of(p, f.index, f.args, depth, m) && Taking(p, f, Goes(next))
    requires Runs(m, Spot(f), n, Done(v, g', trace')) && Unanswered !in trace'
    requires Left(p, callers, v, g', trace', after)
    ensures Leads(p, Running([f] + callers), k, after)
    decreases depth, n, 0
  {
    GoesTail(p, depth, m, f, next, n, callers, Done(v, g', trace'));
    var k1 := NestedToStack(p, depth, m, next, n - 1, callers, v, g', trace', after);
    LeadsOn(p, Running([f] + callers), 1, Running([next] + callers), k1, after);
    k := 1 + k1;
  }

  lemma {:induction false} CallTail(
      p: Program, depth: nat, m: Machine, f: Frame, e: Entry, n: nat, last: Config, a: Answer)
      returns (f1: Frame)
    requires Of(p, f.index, f.args, depth, m) && Taking(p, f, Enters(e))
    requires Answers(p, depth, e, f.mem.globals, CallsUpTo(f, e), a)
    requires Runs(m, Spot(f), n, last) && last.Done? && Unanswered !in TraceOf(last)
    ensures n > 0 && Runs(m, Spot(f1), n - 1, last) && Unanswered !in a.trace
    ensures f1.index == f.index && f1.args == f.args && Back(p, f, a.n, a.globals, a.trace, f1)
  {
    f1 := CodeEnters(p, f, e, depth, m, a.n, a.globals, a.trace);
    RunsTail(m, Spot(f), Spot(f1), n, last);
    UnmarkedBefore(p, depth, m, f, Spot(f1), n - 1, last);
  }

  /** The call and the code of its function, up to where the caller goes on. */
  lemma {:induction false} CallToStack(
      p: Program, depth: nat, m: Machine, f: Frame, e: Entry, n: nat, callers: seq<Frame>, v: Option<int>, g': Globals,
      trace': seq<Event>)
      returns (f1: Frame, k: nat)
    requires Of(p, f.index, f.args, depth, m)
    requires Taking(p, f, Enters(e)) && Enterable(p, e) && e.index < |p.functions|
    requires Runs(m, Spot(f), n, Done(v, g', trace')) && Unanswered !in trace'
    ensures Leads(p, Running([f] + callers), k, Running([f1] + callers))
    ensures f1.index == f.index && f1.args == f.args
    ensures n > 0 && Runs(m, Spot(f1), n - 1, Done(v, g', trace'))
    decreases depth, n, 0
  {
    var last := Done(v, g', trace');
    var g, trace := f.mem.globals, CallsUpTo(f, e);
    var a := AnswerTo(p, depth, e, g, trace);
    f1 := CallTail(p, depth, m, f, e, n, last, a);
    var m1, n1, v1, g1, trace1 := MarkOrCode(p, depth, e, g, trace, a);
    LeftBack(p, f, callers, v1, g1, trace1, f1);
    var inner := Enter(e, g, trace);
    TurnEnters(p, f, e, callers);
    var k1 := NestedToStack(p, depth - 1, m1, inner, n1, [f] + callers, v1, g1, trace1, Running([f1] + callers));
    LeadsOn(p, Running([f] + callers), 1, Running([inner] + ([f] + callers)), k1, Running([f1] + callers));
    k := 1 + k1;
  }

  // ----- from the stack to nested runs -----

  /** The code of no function is ever stuck, whatever answers its calls. */
  lemma {:induction false} CodeNeverStuck(
      p: Program, depth: nat, m: Machine, f: Frame, g: Globals, trace: seq<Event>, n: nat, c: Config)
    requires Sound(p) && f.index < |p.functions| && |f.args| == |p.functions[f.index].params|
    requires Of(p, f.index, f.args, depth, m) && Runs(m, Start(g, trace), n, c)
    ensures !c.Stuck?
  {
    assert Unseal(0);
    var c0 := Context(p.globals, p.voids, CodeWorld(p, depth));
    SameFaithful(Context(p.globals, p.voids, OutsideWorld(p)), c0, p.globals, p.functions);
    Compiled.FunctionMeans(c0, p.functions, f.index);
    MeansNeverStuck(c0, p.functions[f.index], CodeFor(p, f.index), f.args, g, trace, n);
  }

  /** The frame has come from the start of its function in `k` steps, with calls run at this depth, each of
      them answered. */
  ghost predicate Underway(
      p: Program, depth: nat, m: Machine, f: Frame, g: Globals, trace: seq<Event>, k: nat)
  {
    && Of(p, f.index, f.args, depth, m)
    && f.index < |p.functions| && |f.args| == |p.functions[f.index].params| && Unanswered !in f.mem.trace
    && Runs(m, Start(g, trace), k, Spot(f))
  }

  /** Where the stack comes to an end after `n` steps, its innermost function finishes before, with every call
      answered. */
  lemma {:induction false} StackToNested(
      p: Program, depth: nat, m: Machine, f: Frame, g: Globals, trace: seq<Event>, k: nat, callers: seq<Frame>, n: nat,
      last: Stack)
      returns (n1: nat, k1: nat, v: Option<int>, g': Globals, trace': seq<Event>, after: Stack)
    requires Of(p, f.index, f.args, depth, m)
    requires Sound(p) && Underway(p, depth, m, f, g, trace, k)
    requires n <= depth && Leads(p, Running([f] + callers), n, last) && !last.Running?
    ensures 0 < n1 <= n && Leads(p, Running([f] + callers), n1, after)
    ensures Runs(m, Start(g, trace), k1, Done(v, g', trace'))
    ensures Unanswered !in trace' && Left(p, callers, v, g', trace', after)
    decreases n, 1
  {
    var s := Running([f] + callers);
    LeadsNowhere(p, s, n, last);
    var turn := TakeTurn(p, f);
    match turn
    case Enters(e) =>
      var f1, j := StackToCall(p, depth, m, f, e, g, trace, k, callers, n, last);
      LeadsRest(p, s, j, Running([f1] + callers), n, last);
      n1, k1, v, g', trace', after := StackToNested(p, depth, m, f1, g, trace, k + 1, callers, n - j, last);
      LeadsOn(p, s, j, Running([f1] + callers), n1, after);
      n1 := j + n1;
      assert Leads(p, s, n1, after);
    case Goes(next) =>
      TurnGoes(p, f, next, callers, depth, m);
      RunsMore(m, Start(g, trace), k, Spot(f), Spot(next));
      LeadsRest(p, s, 1, Running([next] + callers), n, last);
      n1, k1, v, g', trace', after := StackToNested(p, depth, m, next, g, trace, k + 1, callers, n - 1, last);
      LeadsOn(p, s, 1, Running([next] + callers), n1, after);
      n1 := 1 + n1;
      assert Leads(p, s, n1, after);
    case Ends(u, h, t) =>
      after := LeaveTo(p, callers, u, h, t);
      TurnEnds(p, f, u, h, t, callers, depth, m, after);
      RunsMore(m, Start(g, trace), k, Spot(f), Done(u, h, t));
      n1, k1, v, g', trace' := 1, k + 1, u, h, t;
    case Breaks =>
      TurnBreaks(p, f, depth, m);
      RunsMore(m, Start(g, trace), k, Spot(f), Stuck);
      n1, k1, v, g', trace', after := 0, 0, None, g, trace, s;
      CodeNeverStuck(p, depth, m, f, g, trace, k + 1, Stuck);
  }

  lemma {:induction false} StackToCall(
      p: Program, depth: nat, m: Machine, f: Frame, e: Entry, g: Globals, trace: seq<Event>, k: nat,
      callers: seq<Frame>, n: nat, last: Stack)
      returns (f1: Frame, j: nat)
    requires Of(p, f.index, f.args, depth, m)
    requires Sound(p) && Underway(p, depth, m, f, g, trace, k) && Taking(p, f, Enters(e))
    requires Enterable(p, e)
    requires e.index < |p.functions| && |e.args| == |p.functions[e.index].params|
    requires 0 < n <= depth && Leads(p, Running([f] + callers), n, last) && !last.Running?
    ensures 0 < j <= n && Leads(p, Running([f] + callers), j, Running([f1] + callers))
    ensures Underway(p, depth, m, f1, g, trace, k + 1) && f1.index == f.index && f1.args == f.args
    decreases n, 0
  {
    var s := Running([f] + callers);
    var g0, trace0 := f.mem.globals, CallsUpTo(f, e);
    var inner := Enter(e, g0, trace0);
    var m1 := MachineFor(p, e.index, e.args, depth - 1);
    var s1 := Running([inner] + ([f] + callers));
    TurnEnters(p, f, e, callers);
    LeadsRest(p, s, 1, s1, n, last);
    var n1, k1, v, g1, trace1, after := StackToNested(p, depth - 1, m1, inner, g0, trace0, 0, [f] + callers, n - 1,
      last);
    CalleeReturned(p, depth, m1, e, g0, trace0, k1, v, g1, trace1);
    f1 := CodeEnters(p, f, e, depth, m, Value0(v), g1, trace1);
    LeftBack(p, f, callers, v, g1, trace1, f1);
    LeftOnce(p, [f] + callers, v, g1, trace1, after, Running([f1] + callers));
    j := 1 + n1;
    LeadsOn(p, s, 1, s1, n1, Running([f1] + callers));
    RunsMore(m, Start(g, trace), k, Spot(f), Spot(f1));
  }

  lemma {:induction false} CalleeReturned(
      p: Program, depth: nat, m: Machine, e: Entry, g: Globals, trace: seq<Event>, k: nat, v: Option<int>, g': Globals,
      trace': seq<Event>)
    requires e.index < |p.functions| && Enterable(p, e) && depth > 0
    requires Of(p, e.index, e.args, depth - 1, m)
    requires Runs(m, Start(g, trace), k, Done(v, g', trace'))
    ensures Answers(p, depth, e, g, trace, Answer(Value0(v), g', trace'))
  {
    assert Unseal(0);
    assert Run(Machine(CodeFor(p, e.index), e.args, CodeWorld(p, depth - 1)), Start(g, trace), k) ==
      Done(v, g', trace');
    Answered(p, depth, e, g, trace, v, g', trace');
  }

  // ----- main results -----

  /** The machine with the stack, started with function `i`, comes to an end with this result. */
  ghost predicate StackReturns(
      p: Program, i: nat, args: seq<int>, g: Globals, trace: seq<Event>, v: Option<int>, g': Globals,
      trace': seq<Event>)
  {
    exists n: nat :: StackRun(p, Running([Call(i, args, g, trace)]), n) == Finished(v, g', trace')
  }

  /** A stack that comes to an end has finished with what its one function returns. */
  lemma {:induction false} StackEnds(p: Program, m: Machine, f: Frame, g: Globals, trace: seq<Event>, n: nat,
        last: Stack)
      returns (k: nat)
    requires Sound(p) && Underway(p, n, m, f, g, trace, 0)
    requires Leads(p, Running([f]), n, last) && !last.Running?
    ensures last.Finished? && Unanswered !in last.trace
    ensures Runs(m, Start(g, trace), k, Done(last.result, last.globals, last.trace))
  {
    var none: seq<Frame> := [];
    assert [f] + none == [f];
    var n1, k1, v, g', trace', after := StackToNested(p, n, m, f, g, trace, 0, none, n, last);
    var end := LeaveTo(p, none, v, g', trace');
    LeftOnce(p, none, v, g', trace', after, end);
    LeadsRest(p, Running([f]), n1, Finished(v, g', trace'), n, last);
    LeadsFinally(p, Finished(v, g', trace'), n - n1, last);
    k := k1;
  }

  lemma {:induction false} CodeEnds(
      p: Program, depth: nat, m: Machine, f: Frame, g: Globals, trace: seq<Event>, k: nat, v: Option<int>, g': Globals,
      trace': seq<Event>)
    requires Of(p, f.index, f.args, depth, m)
    requires f.index < |p.functions|
    requires Runs(m, Start(g, trace), k, Done(v, g', trace'))
    ensures CodeReturns(p, CodeWorld(p, depth), f.index, f.args, g, trace, v, g', trace')
  {
    assert Unseal(0);
  }

  lemma {:induction false} StackFinishes(
      p: Program, depth: nat, m: Machine, f: Frame, g: Globals, trace: seq<Event>, v: Option<int>, g': Globals,
      trace': seq<Event>)
    requires Of(p, f.index, f.args, depth, m)
    requires f == Call(f.index, f.args, g, trace) && f.index < |p.functions| && Unanswered !in trace'
    requires CodeReturns(p, CodeWorld(p, depth), f.index, f.args, g, trace, v, g', trace')
    ensures StackReturns(p, f.index, f.args, g, trace, v, g', trace')
  {
    var none: seq<Frame> := [];
    assert [f] + none == [f];
    assert Unseal(0) && Unstack(0);
    var n: nat :| Run(m, Start(g, trace), n) == Done(v, g', trace');
    assert Start(g, trace) == Spot(f);
    var after := LeaveTo(p, none, v, g', trace');
    var k := NestedToStack(p, depth, m, f, n, none, v, g', trace', after);
    assert StackRun(p, Running([f]), k) == Finished(v, g', trace');
  }

  /** Executing the source of the function and of everything it calls comes to an end with this result, calls
      nested as deep as it takes and each of them answered. */
  ghost predicate SourceEnds(
      p: Program, i: nat, args: seq<int>, g: Globals, trace: seq<Event>, v: Option<int>, g': Globals,
      trace': seq<Event>)
    requires i < |p.functions| && |args| == |p.functions[i].params|
  {
    Unanswered !in trace' && exists depth: nat :: SourceReturns(p, SourceWorld(p, depth), i, args, g, trace, v, g',
      trace')
  }

  /** The code of the program, with its calls on a stack, comes to an end exactly if the source does, with the
      same result, globals and calls; where the source runs for ever, at whatever depth, so does the code. */
  lemma {:induction false} CallStackExact(
      p: Program, i: nat, args: seq<int>, g: Globals, trace: seq<Event>, v: Option<int>, g': Globals,
      trace': seq<Event>)
    requires Lowerable(p) && i < |p.functions| && |args| == |p.functions[i].params| && Unanswered !in trace
    ensures StackReturns(p, i, args, g, trace, v, g', trace') <==> SourceEnds(p, i, args, g, trace, v, g', trace')
  {
    var f := Call(i, args, g, trace);
    var none: seq<Frame> := [];
    assert [f] + none == [f];
    if StackReturns(p, i, args, g, trace, v, g', trace') {
      var n: nat :| StackRun(p, Running([f]), n) == Finished(v, g', trace');
      var m := MachineFor(p, i, args, n);
      var k1 := StackEnds(p, m, f, g, trace, n, Finished(v, g', trace'));
      CodeEnds(p, n, m, f, g, trace, k1, v, g', trace');
      LinkedExact(p, n, i, args, g, trace, v, g', trace');
    }
    if SourceEnds(p, i, args, g, trace, v, g', trace') {
      var depth: nat :| SourceReturns(p, SourceWorld(p, depth), i, args, g, trace, v, g', trace');
      LinkedExact(p, depth, i, args, g, trace, v, g', trace');
      var m := MachineFor(p, i, args, depth);
      StackFinishes(p, depth, m, f, g, trace, v, g', trace');
    }
  }

  /** It never breaks: it comes to an end or it runs for ever. */
  lemma {:induction false} CallStackNeverBreaks(
      p: Program, i: nat, args: seq<int>, g: Globals, trace: seq<Event>, n: nat)
    requires Lowerable(p) && i < |p.functions| && |args| == |p.functions[i].params| && Unanswered !in trace
    ensures !StackRun(p, Running([Call(i, args, g, trace)]), n).Broken?
  {
    var f := Call(i, args, g, trace);
    var last := StackRun(p, Running([f]), n);
    if last.Broken? {
      var m := MachineFor(p, i, args, n);
      var k1 := StackEnds(p, m, f, g, trace, n, last);
    }
  }
}
