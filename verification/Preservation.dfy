/** The main results about lowering, for functions and for programs. */
module Preservation {
  import opened Wrappers
  import opened Ast
  import opened Ir
  import opened Source
  import opened Lower
  import opened Scope
  import opened LowerShape
  import opened LowerFacts
  import opened LowerNames
  import opened Relation
  import opened ExprSimulation
  import opened StmtSimulation

  // ----- what a function must satisfy -----

  function ParamSet(ps: seq<string>): set<string> {
    set p | p in ps
  }

  /** Names are used where they are visible and loop exits stand in loops, as the validator checks. */
  predicate FunctionScoped(globals: set<string>, f: Function) {
    WellScopedList(f.body, ParamSet(f.params) + globals, false)
  }

  /** Where a name is used in lowered code the flat table still has it right, if it has the globals of
      `known` right at the start, and every condition has a value. */
  predicate FunctionFaithful(known: set<string>, voids: set<string>, f: Function) {
    FaithfulList(f.body, known + ParamSet(f.params)) && CondsValuedList(voids, f.body)
  }

  /** The symbol table has an entry for every global. */
  ghost predicate TableCovers(globals: set<string>, syms: Syms, nextTemp: nat) {
    SymsOk(syms, nextTemp) && globals <= syms.Keys
  }

  /** It has the globals of `known` right. */
  ghost predicate TableOk(globals: set<string>, known: set<string>, syms: Syms, nextTemp: nat) {
    TableCovers(globals, syms, nextTemp) && known <= globals && Good(syms, [], globals, known)
  }

  // ----- the prolog -----

  lemma {:induction false} EmptyOk(syms: Syms, nextTemp: nat)
    requires SymsOk(syms, nextTemp)
    ensures Valid(EmptyState(syms, nextTemp)) && !Closed(EmptyState(syms, nextTemp))
      && Names(EmptyState(syms, nextTemp))
  {
  }

  /** One block, nothing in it closed, the table extended by the parameters. */
  ghost predicate InEntry(st: State) {
    Valid(st) && !Closed(st) && Names(st) && |st.blocks| == 1 && st.loops == []
  }

  lemma {:induction false} ParamsOk(ps: seq<string>, index: nat, st: State)
    requires InEntry(st)
    ensures var st' := LowerParams(ps, index, st);
            && InEntry(st')
            && Grows(st, st')
            && Renames(st, st', ParamSet(ps))
    decreases ps
  {
    if ps == [] {
      assert ParamSet(ps) == {};
      RenamesNothing(st, st);
      forall b
        ensures GrowsAt(st.blocks, st.blocks, b)
      {
      }
    } else {
      var st1 := AddSlot(st, ps[0]);
      var i := Store(Temp(st.nextTemp), Param(index));
      AddSlotOk(st, ps[0]);
      AddSlotNames(st, ps[0]);
      EmitOk(st1, i);
      EmitNames(st1, i);
      var st2 := Emit(st1, i);
      GrowsTrans(st, st1, st2);
      RenamesTrans(st, st1, st2, {ps[0]}, {});
      ParamsOk(ps[1..], index + 1, st2);
      var st' := LowerParams(ps, index, st);
      GrowsTrans(st, st2, st');
      RenamesTrans(st, st2, st', {ps[0]} + {}, ParamSet(ps[1..]));
      assert {ps[0]} + {} + ParamSet(ps[1..]) == ParamSet(ps);
    }
  }

  lemma {:induction false} PrologOk(f: Function, syms: Syms, nextTemp: nat)
    requires SymsOk(syms, nextTemp)
    ensures var st0 := EmptyState(syms, nextTemp);
            var st' := LowerProlog(f, syms, nextTemp);
            && InEntry(st')
            && Renames(st0, st', ParamSet(f.params))
  {
    var st0 := EmptyState(syms, nextTemp);
    EmptyOk(syms, nextTemp);
    if f.name == "main" {
      var i := CallFn(None, INIT, []);
      EmitOk(st0, i);
      EmitNames(st0, i);
      ParamsOk(f.params, 0, Emit(st0, i));
      RenamesTrans(st0, Emit(st0, i), LowerProlog(f, syms, nextTemp), {}, ParamSet(f.params));
      assert {} + ParamSet(f.params) == ParamSet(f.params);
    } else {
      ParamsOk(f.params, 0, st0);
    }
  }

  // ----- running the slots -----

  ghost predicate FirstSlots(fin: State, mem: Memory, n: nat) {
    && mem.next == n
    && forall k {:trigger SlotReady(fin, mem, k)} | k < n :: SlotReady(fin, mem, k)
  }

  /** The slots come first in the entry block, so they run once, in order, before anything else. */
  lemma {:induction false} RunSlots(m: Machine, fin: State, g: Globals, trace: seq<Event>, n: nat) returns (mem: Memory)
    requires m.code == CodeOf(fin) && fin.blocks != [] && Names(fin) && n <= |fin.slots|
    ensures Run(m, Start(g, trace), n) == At(0, n, mem)
    ensures FirstSlots(fin, mem, n) && mem.globals == g && mem.trace == trace
    decreases n
  {
    if n == 0 {
      mem := EMPTY_MEMORY.(globals := g, trace := trace);
    } else {
      var mem1 := RunSlots(m, fin, g, trace, n - 1);
      RunAdd(m, Start(g, trace), n - 1, 1);
      var i := fin.slots[n - 1];
      assert SlotAt(fin.slots, fin.nextTemp, n - 1);
      assert m.code[0][n - 1] == i;
      mem := SetReg(mem1, i.dest, Cell(mem1.next)).(next := mem1.next + 1);
      assert Run(m, At(0, n - 1, mem1), 1) == At(0, n, mem);
      forall k | k < n
        ensures SlotReady(fin, mem, k)
      {
        if k < n - 1 {
          assert SlotReady(fin, mem1, k) && SlotsApart(fin.slots, k, n - 1) && SlotAt(fin.slots, fin.nextTemp, k);
        }
      }
    }
  }

  // ----- running the prolog -----

  lemma {:induction false} ParamSetStep(before: set<string>, ps: seq<string>)
    requires ps != []
    ensures before + ParamSet(ps) == before + {ps[0]} + ParamSet(ps[1..])
  {
    assert ParamSet(ps) == {ps[0]} + ParamSet(ps[1..]);
  }

  lemma {:induction false} SimFirstParam(
      c: Context, m: Machine, fin: State, ps: seq<string>, v: int, index: nat, s: Mem, fr: Frames, good: set<string>,
      st: State, mem: Memory)
      returns (mem': Memory)
    requires Ready(c, m, fin, s, fr, st, mem) && InEntry(st) && |s.env| > 0 && |fr| > 0
    requires Good(st.syms, fr, c.globals, good) && Below(fr, st.nextTemp)
    requires ps != [] && Within(LowerParams(ps, index, st), fin)
    requires index < |m.args| && v == m.args[index]
    ensures var st2 := Emit(AddSlot(st, ps[0]), Store(Temp(st.nextTemp), Param(index)));
            var s1 := s.(env := Declare(s.env, ps[0], v));
            var fr1 := DeclareSlot(fr, ps[0], Temp(st.nextTemp));
            && Reaches(c, m, fin, st, mem, 1, st2, mem', s1, fr1)
            && Ready(c, m, fin, s1, fr1, st2, mem') && InEntry(st2) && Within(LowerParams(ps[1..], index + 1, st2), fin)
            && Good(st2.syms, fr1, c.globals, good + {ps[0]}) && Below(fr1, st2.nextTemp)
            && Visible(c, s1) == Visible(c, s) + {ps[0]}
  {
    var st2 := Emit(AddSlot(st, ps[0]), Store(Temp(st.nextTemp), Param(index)));
    ParamStates(ps[0], index, st);
    assert Within(st2, fin) by {
      ParamsOk(ps[1..], index + 1, st2);
      WithinBefore(st2, LowerParams(ps, index, st), fin);
    }
    mem' := SimParam(c, m, fin, ps[0], index, s, fr, st, mem);
    GoodDeclared(st.syms, fr, c.globals, good, ps[0], Temp(st.nextTemp));
    DeclareBelow(fr, ps[0], st.nextTemp);
    DeclareKeys(s.env, ps[0], v);
  }

  /** The parameters from `index` on are about to be stored, in order. */
  ghost predicate Arriving(c: Context, m: Machine, fin: State, ps: seq<string>, args: seq<int>, index: nat, s: Mem,
      fr: Frames, good: set<string>, st: State, mem: Memory)
  {
    && Ready(c, m, fin, s, fr, st, mem) && InEntry(st) && |s.env| > 0 && |fr| > 0
    && Good(st.syms, fr, c.globals, good) && Below(fr, st.nextTemp)
    && Within(LowerParams(ps, index, st), fin)
    && |ps| == |args| && index + |ps| == |m.args| && args == m.args[index..]
  }

  /** After `n` steps they are bound. */
  ghost predicate Bound(c: Context, m: Machine, fin: State, ps: seq<string>, args: seq<int>, s: Mem, good: set<string>,
      st: State, mem: Memory, st': State, n: nat, mem': Memory, fr': Frames)
  {
    && |ps| == |args| && |s.env| > 0
    && Reaches(c, m, fin, st, mem, n, st', mem', BindParams(ps, args, s), fr')
    && |fr'| > 0 && Good(st'.syms, fr', c.globals, good + ParamSet(ps)) && Below(fr', st'.nextTemp)
    && Visible(c, BindParams(ps, args, s)) == Visible(c, s) + ParamSet(ps)
  }

  lemma {:induction false} SimNoParams(c: Context, m: Machine, fin: State, index: nat, s: Mem, fr: Frames,
      good: set<string>, st: State, mem: Memory)
    requires Arriving(c, m, fin, [], [], index, s, fr, good, st, mem)
    ensures Bound(c, m, fin, [], [], s, good, st, mem, st, 0, mem, fr)
  {
    assert good + ParamSet([]) == good;
    KeepsSame(mem, mem, st.nextTemp);
  }

  lemma {:induction false} SimMoreParams(c: Context, m: Machine, fin: State, ps: seq<string>, args: seq<int>,
        index: nat, s: Mem, fr: Frames, good: set<string>, st: State, mem: Memory)
      returns (n: nat, mem': Memory, fr': Frames)
    requires ps != [] && Arriving(c, m, fin, ps, args, index, s, fr, good, st, mem)
    ensures Bound(c, m, fin, ps, args, s, good, st, mem, LowerParams(ps, index, st), n, mem', fr')
    decreases ps, 0
  {
    var st2 := Emit(AddSlot(st, ps[0]), Store(Temp(st.nextTemp), Param(index)));
    var s1 := s.(env := Declare(s.env, ps[0], args[0]));
    var fr1 := DeclareSlot(fr, ps[0], Temp(st.nextTemp));
    var mem1 := SimFirstParam(c, m, fin, ps, args[0], index, s, fr, good, st, mem);
    ParamSetStep(good, ps);
    ParamSetStep(Visible(c, s), ps);
    n, mem', fr' := SimParams(c, m, fin, ps[1..], args[1..], index + 1, s1, fr1, good + {ps[0]}, st2, mem1);
    ReachesTrans(c, m, fin, st, mem, 1, st2, mem1, s1, fr1, n, LowerParams(ps, index, st), mem',
      BindParams(ps, args, s),
      fr');
    n := 1 + n;
  }

  /** The store after binding the parameters sees exactly the parameters and the globals, and the table
      has the parameters right. */
  lemma {:induction false} SimParams(c: Context, m: Machine, fin: State, ps: seq<string>, args: seq<int>, index: nat,
      s: Mem, fr: Frames, good: set<string>, st: State, mem: Memory)
      returns (n: nat, mem': Memory, fr': Frames)
    requires Arriving(c, m, fin, ps, args, index, s, fr, good, st, mem)
    ensures Bound(c, m, fin, ps, args, s, good, st, mem, LowerParams(ps, index, st), n, mem', fr')
    decreases ps, 1
  {
    if ps == [] {
      n, mem', fr' := 0, mem, fr;
      SimNoParams(c, m, fin, index, s, fr, good, st, mem);
    } else {
      n, mem', fr' := SimMoreParams(c, m, fin, ps, args, index, s, fr, good, st, mem);
    }
  }

  /** One parameter. */
  lemma {:induction false} SimParam(
      c: Context, m: Machine, fin: State, x: string, index: nat, s: Mem, fr: Frames, st: State, mem: Memory)
      returns (mem': Memory)
    requires Ready(c, m, fin, s, fr, st, mem) && InEntry(st) && |s.env| > 0 && Below(fr, st.nextTemp)
    requires Within(Emit(AddSlot(st, x), Store(Temp(st.nextTemp), Param(index))), fin)
    requires index < |m.args|
    ensures var st2 := Emit(AddSlot(st, x), Store(Temp(st.nextTemp), Param(index)));
            Reaches(c, m, fin, st, mem, 1, st2, mem', s.(env := Declare(s.env, x, m.args[index])),
                    DeclareSlot(fr, x, Temp(st.nextTemp)))
  {
    var st1 := AddSlot(st, x);
    ParamStates(x, index, st);
    assert SlotKept(Emit(st1, Store(Temp(st.nextTemp), Param(index))).slots, fin.slots, Alloca(st.nextTemp));
    mem' := SimFirstStore(c, m, fin, x, Param(index), m.args[index], s, fr, st.nextTemp, st1, mem);
    KeepsLess(mem, mem', st.nextTemp, st1.nextTemp);
  }

  lemma {:induction false} ParamStates(x: string, index: nat, st: State)
    requires InEntry(st)
    ensures var st2 := Emit(AddSlot(st, x), Store(Temp(st.nextTemp), Param(index)));
            && InEntry(st2)
            && Alloca(st.nextTemp) in st2.slots
            && st2.syms == st.syms[x := Temp(st.nextTemp)] && st2.nextTemp == st.nextTemp + 1
  {
    var st1 := AddSlot(st, x);
    AddSlotOk(st, x);
    AddSlotNames(st, x);
    EmitOk(st1, Store(Temp(st.nextTemp), Param(index)));
    EmitNames(st1, Store(Temp(st.nextTemp), Param(index)));
    assert st1.slots[0] == Alloca(st.nextTemp);
  }

  /** After the slots nothing is visible but the globals. */
  lemma {:induction false} SimStart(
      c: Context, m: Machine, fin: State, syms: Syms, nextTemp: nat, g: Globals, trace: seq<Event>)
      returns (mem: Memory)
    requires Linked(c, m, fin)
    ensures var s0 := Mem([map[]], g, trace);
            && Rel(c, s0, [map[]], fin, mem)
            && Visible(c, s0) == c.globals
            && Run(m, Start(g, trace), |fin.slots|) == Here(fin, EmptyState(syms, nextTemp), mem)
  {
    mem := RunSlots(m, fin, g, trace, |fin.slots|);
    var env: Env := [map[]];
    assert Pop(env) == [] && Keys(env) == {};
    assert SlotsReady(fin, mem) by {
      forall k
        ensures SlotReady(fin, mem, k)
      {
      }
    }
  }

  function AfterInit(c: Context, f: Function, g: Globals, trace: seq<Event>): (s: Mem)
    ensures s.env == [map[]]
  {
    var s0 := Mem([map[]], g, trace);
    if f.name == "main" then EvalCall(c, INIT, [], s0).1 else s0
  }

  /** The state after the call that starts `main`. */
  function InitState(f: Function, syms: Syms, nextTemp: nat): State {
    var st := EmptyState(syms, nextTemp);
    if f.name == "main" then Emit(st, CallFn(None, INIT, [])) else st
  }

  lemma {:induction false} InitStateOk(f: Function, syms: Syms, nextTemp: nat)
    requires SymsOk(syms, nextTemp)
    ensures var st := InitState(f, syms, nextTemp);
            InEntry(st) && st.syms == syms && LowerProlog(f, syms, nextTemp) == LowerParams(f.params, 0, st)
  {
  }

  lemma {:induction false} SimInit(
      c: Context, m: Machine, fin: State, f: Function, syms: Syms, nextTemp: nat, g: Globals, trace: seq<Event>)
      returns (n: nat, mem: Memory)
    requires Linked(c, m, fin) && SymsOk(syms, nextTemp)
    requires Within(InitState(f, syms, nextTemp), fin)
    ensures InEntry(InitState(f, syms, nextTemp))
    ensures var s := AfterInit(c, f, g, trace);
            && Rel(c, s, [map[]], fin, mem)
            && Visible(c, s) == c.globals
            && Run(m, Start(g, trace), n) == Here(fin, InitState(f, syms, nextTemp), mem)
  {
    InitStateOk(f, syms, nextTemp);
    var mem0 := SimStart(c, m, fin, syms, nextTemp, g, trace);
    n, mem := |fin.slots|, mem0;
    if f.name == "main" {
      StepHere(c, m, fin, EmptyState(syms, nextTemp), CallFn(None, INIT, []), mem0);
      RelCall(c, Mem([map[]], g, trace), [map[]], fin, mem0, INIT, [], None);
      mem := Invoke(c.world, mem0, None, INIT, []);
      RunAdd(m, Start(g, trace), n, 1);
      n := n + 1;
    }
  }

  /** What holds where the body of a function starts. */
  ghost predicate AtBody(
      c: Context, m: Machine, fin: State, known: set<string>, f: Function, s: Mem, fr: Frames, st: State, mem: Memory)
  {
    && |s.env| > 0 && |fr| > 0
    && Visible(c, s) == ParamSet(f.params) + c.globals
    && InEntry(st)
    && Ready(c, m, fin, s, fr, st, mem)
    && Good(st.syms, fr, c.globals, known + ParamSet(f.params)) && Below(fr, st.nextTemp)
  }

  /** From the start of the function to the start of its body. */
  lemma {:induction false} SimProlog(
      c: Context, m: Machine, fin: State, known: set<string>, f: Function, syms: Syms, nextTemp: nat, g: Globals,
      trace: seq<Event>)
      returns (n: nat, mem: Memory, fr: Frames)
    requires Linked(c, m, fin) && TableOk(c.globals, known, syms, nextTemp)
    requires Within(LowerProlog(f, syms, nextTemp), fin)
    requires |m.args| == |f.params|
    ensures var st := LowerProlog(f, syms, nextTemp);
            && AtBody(c, m, fin, known, f, BindParams(f.params, m.args, AfterInit(c, f, g, trace)), fr, st, mem)
            && Run(m, Start(g, trace), n) == Here(fin, st, mem)
  {
    var st1 := InitState(f, syms, nextTemp);
    var st := LowerProlog(f, syms, nextTemp);
    InitStateOk(f, syms, nextTemp);
    ParamsOk(f.params, 0, st1);
    WithinBefore(st1, st, fin);
    var n1, mem1 := SimInit(c, m, fin, f, syms, nextTemp, g, trace);
    var s1 := AfterInit(c, f, g, trace);
    GoodPush(syms, [], c.globals, known);
    var none: Frames := [];
    assert none + [map[]] == [map[]];
    var n2;
    n2, mem, fr := SimParams(c, m, fin, f.params, m.args, 0, s1, [map[]], known, st1, mem1);
    RunAdd(m, Start(g, trace), n1, n2);
    n := n1 + n2;
    BindHeight(f.params, m.args, s1);
  }

  lemma {:induction false} BindHeight(ps: seq<string>, args: seq<int>, s: Mem)
    requires |ps| <= |args| && |s.env| > 0
    ensures |BindParams(ps, args, s).env| == |s.env|
    decreases ps
  {
    if ps == [] {
    } else {
      BindHeight(ps[1..], args[1..], s.(env := Declare(s.env, ps[0], args[0])));
    }
  }

  // ----- preservation of meaning -----

  /** The result of a run that agrees with the outcome of the structured execution. */
  ghost predicate Agrees(m: Machine, o: Outcome, fuel: nat, start: Config, n: nat) {
    match o
    case Returned(v, s) => Run(m, start, n) == Done(v, s.globals, s.trace)
    case OutOfFuel => fuel <= n && Run(m, start, n).At?
    case _ => false
  }

  lemma {:induction false} FunctionPieces(c: Context, f: Function, syms: Syms, nextTemp: nat)
    requires FunctionScoped(c.globals, f) && TableCovers(c.globals, syms, nextTemp)
    ensures var st := LowerProlog(f, syms, nextTemp);
            var st1 := LowerList(c.voids, f.body, st);
            var fin := LowerFunction(c.voids, f, syms, nextTemp);
            && InEntry(st)
            && ParamSet(f.params) + c.globals <= st.syms.Keys
            && Renames(EmptyState(syms, nextTemp), st, ParamSet(f.params))
            && ListSpec(c.voids, f.body, st)
            && Renames(st, st1, DeclsList(f.body))
            && Advance(st1, fin)
            && Renames(st1, fin, {})
            && Closed(fin)
            && Within(st, fin) && Within(st1, fin) && Grows(fin, fin)
  {
    PrologOk(f, syms, nextTemp);
    var st := LowerProlog(f, syms, nextTemp);
    var scope := ParamSet(f.params) + c.globals;
    LowerListOk(c.voids, f.body, scope, st);
    LowerListNames(c.voids, f.body, scope, st);
    var st1 := LowerList(c.voids, f.body, st);
    EmitEndOk(st1, Ret(None));
    EmitNames(st1, Ret(None));
    var fin := LowerFunction(c.voids, f, syms, nextTemp);
    if Closed(st1) {
      RenamesNothing(st1, fin);
    }
    forall b
      ensures GrowsAt(fin.blocks, fin.blocks, b)
    {
    }
    RenamesNothing(fin, fin);
    WithinBefore(st1, fin, fin);
    WithinBefore(st, st1, fin);
  }

  /** Running the blocks of a lowered function from its entry gives the return value, the globals and
      the calls of its structured execution; while that execution goes on, so does the run. */
  lemma {:induction false} LoweringPreserves(
      c: Context, known: set<string>, f: Function, syms: Syms, nextTemp: nat, args: seq<int>, g: Globals,
      trace: seq<Event>, fuel: nat)
      returns (n: nat)
    requires FunctionScoped(c.globals, f) && FunctionFaithful(known, c.voids, f)
    requires TableOk(c.globals, known, syms, nextTemp) && |args| == |f.params|
    ensures var m := Machine(CodeOf(LowerFunction(c.voids, f, syms, nextTemp)), args, c.world);
            Agrees(m, CallFunction(c, f, args, g, trace, fuel), fuel, Start(g, trace), n)
  {
    var fin := LowerFunction(c.voids, f, syms, nextTemp);
    FunctionPieces(c, f, syms, nextTemp);
    n := SimFunction(c, Machine(CodeOf(fin), args, c.world), fin, known, f, syms, nextTemp, g, trace, fuel);
  }

  lemma {:induction false} SimFunction(
      c: Context, m: Machine, fin: State, known: set<string>, f: Function, syms: Syms, nextTemp: nat, g: Globals,
      trace: seq<Event>, fuel: nat)
      returns (n: nat)
    requires FunctionScoped(c.globals, f) && FunctionFaithful(known, c.voids, f)
    requires Linked(c, m, fin) && TableOk(c.globals, known, syms, nextTemp) && |m.args| == |f.params|
    requires var st := LowerProlog(f, syms, nextTemp);
             var st1 := LowerList(c.voids, f.body, st);
             && fin == EmitEnd(st1, Ret(None)) && ParamSet(f.params) + c.globals <= st.syms.Keys
             && Valid(st1) && Within(st, fin) && Within(st1, fin) && Grows(fin, fin)
    ensures Agrees(m, CallFunction(c, f, m.args, g, trace, fuel), fuel, Start(g, trace), n)
  {
    var st := LowerProlog(f, syms, nextTemp);
    var n1, mem1, fr := SimProlog(c, m, fin, known, f, syms, nextTemp, g, trace);
    var s := BindParams(f.params, m.args, AfterInit(c, f, g, trace));
    n := SimCalled(c, m, fin, f, s, fr, known + ParamSet(f.params), st, mem1, g, trace, fuel, n1);
  }

  /** The body of a function whose parameters `n1` steps have bound. */
  lemma {:induction false} SimCalled(
      c: Context, m: Machine, fin: State, f: Function, s: Mem, fr: Frames, good: set<string>, st: State, mem: Memory,
      g: Globals, trace: seq<Event>, fuel: nat, n1: nat)
      returns (n: nat)
    requires Ready(c, m, fin, s, fr, st, mem) && InEntry(st) && SoundList(c, f.body, s, fr, good, st)
    requires fin == EmitEnd(LowerList(c.voids, f.body, st), Ret(None)) && Within(LowerList(c.voids, f.body, st), fin)
    requires Valid(LowerList(c.voids, f.body, st)) && Grows(fin, fin)
    requires |m.args| == |f.params| && s == BindParams(f.params, m.args, AfterInit(c, f, g, trace))
    requires Run(m, Start(g, trace), n1) == Here(fin, st, mem)
    ensures Agrees(m, CallFunction(c, f, m.args, g, trace, fuel), fuel, Start(g, trace), n)
  {
    var n2 := SimBody(c, m, fin, f.body, s, fr, good, st, mem, fuel);
    CallAgrees(c, m, f, g, trace, fuel, s, n1, Here(fin, st, mem), n2);
    n := n1 + n2;
  }

  /** Falling off the end of a function returns nothing. */
  function Settled(o: Outcome): Outcome {
    if o.Normal? then Returned(None, o.s) else o
  }

  lemma {:induction false} CallAgrees(
      c: Context, m: Machine, f: Function, g: Globals, trace: seq<Event>, fuel: nat, s: Mem, j: nat, mid: Config,
      n: nat)
    requires |m.args| == |f.params| && s == BindParams(f.params, m.args, AfterInit(c, f, g, trace))
    requires Run(m, Start(g, trace), j) == mid && Agrees(m, Settled(ExecBlock(c, f.body, s, fuel)), fuel, mid, n)
    ensures Agrees(m, CallFunction(c, f, m.args, g, trace, fuel), fuel, Start(g, trace), j + n)
  {
    assert CallFunction(c, f, m.args, g, trace, fuel) == Settled(ExecBlock(c, f.body, s, fuel));
    AgreesAfter(m, Settled(ExecBlock(c, f.body, s, fuel)), fuel, Start(g, trace), j, mid, n);
  }

  lemma {:induction false} AgreesAfter(m: Machine, o: Outcome, fuel: nat, start: Config, j: nat, mid: Config, n: nat)
    requires Run(m, start, j) == mid && Agrees(m, o, fuel, mid, n)
    ensures Agrees(m, o, fuel, start, j + n)
  {
    RunAdd(m, start, j, n);
  }

  /** From the start of the body to the end of the function. */
  lemma {:induction false} SimBody(
      c: Context, m: Machine, fin: State, body: seq<Stmt>, s: Mem, fr: Frames, good: set<string>, st: State,
      mem: Memory, fuel: nat)
      returns (n: nat)
    requires Ready(c, m, fin, s, fr, st, mem) && InEntry(st) && SoundList(c, body, s, fr, good, st)
    requires fin == EmitEnd(LowerList(c.voids, body, st), Ret(None)) && Within(LowerList(c.voids, body, st), fin)
    requires Valid(LowerList(c.voids, body, st)) && Grows(fin, fin)
    ensures Agrees(m, Settled(ExecBlock(c, body, s, fuel)), fuel, Here(fin, st, mem), n)
  {
    var st1 := LowerList(c.voids, body, st);
    var mem1;
    n, mem1 := SimBlock(c, m, fin, body, s, fr, good, st, mem, fuel);
    if ExecBlock(c, body, s, fuel).Normal? {
      SimEnd(c, m, fin, st1, Ret(None), mem1);
      RunAdd(m, Here(fin, st, mem), n, 1);
      n := n + 1;
    }
  }

  /** The code finishes with this result, these globals and these calls. */
  ghost predicate Finishes(m: Machine, g: Globals, trace: seq<Event>, v: Option<int>, g': Globals, trace': seq<Event>) {
    exists n: nat :: Run(m, Start(g, trace), n) == Done(v, g', trace')
  }

  /** The structured execution returns with them. */
  ghost predicate Returns(
      c: Context, f: Function, args: seq<int>, g: Globals, trace: seq<Event>, v: Option<int>, g': Globals,
      trace': seq<Event>)
    requires |args| == |f.params|
  {
    exists fuel: nat, s ::
      CallFunction(c, f, args, g, trace, fuel) == Returned(v, s) && s.globals == g' && s.trace == trace'
  }

  /** The code does what the function means: after some number of steps, with every argument, in every
      state and every world. */
  ghost predicate Means(c: Context, f: Function, code: Code) {
    forall args: seq<int>, g: Globals, trace: seq<Event>, fuel: nat | |args| == |f.params| ::
      Reached(c, f, code, args, g, trace, fuel)
  }

  ghost predicate Reached(
      c: Context, f: Function, code: Code, args: seq<int>, g: Globals, trace: seq<Event>, fuel: nat)
    requires |args| == |f.params|
  {
    exists n: nat :: Agrees(Machine(code, args, c.world), CallFunction(c, f, args, g, trace, fuel), fuel,
      Start(g, trace), n)
  }

  lemma {:induction false} HaltsOnce(m: Machine, start: Config, n: nat, k: nat)
    requires !Run(m, start, n).At?
    ensures !Run(m, start, k).At? ==> Run(m, start, k) == Run(m, start, n)
    ensures n <= k ==> Run(m, start, k) == Run(m, start, n)
  {
    if !Run(m, start, k).At? {
      RunDeterministic(m, start, n, k);
    }
    if n <= k {
      RunAdd(m, start, n, k - n);
      RunHalted(m, Run(m, start, n), k - n);
    }
  }

  /** Runs are deterministic: code that means what a function means finishes exactly as it returns. */
  lemma {:induction false} MeansFinishes(
      c: Context, f: Function, code: Code, args: seq<int>, g: Globals, trace: seq<Event>, v: Option<int>, g': Globals,
      trace': seq<Event>)
    requires Means(c, f, code) && |args| == |f.params|
    ensures Finishes(Machine(code, args, c.world), g, trace, v, g', trace') <==>
      Returns(c, f, args, g, trace, v, g', trace')
  {
    var m, start := Machine(code, args, c.world), Start(g, trace);
    if Finishes(m, g, trace, v, g', trace') {
      var n: nat :| Run(m, start, n) == Done(v, g', trace');
      var o := CallFunction(c, f, args, g, trace, n + 1);
      assert Reached(c, f, code, args, g, trace, n + 1);
      var k: nat :| Agrees(m, o, n + 1, start, k);
      HaltsOnce(m, start, n, k);
      assert o.Returned? && o == Returned(v, o.s) && o.s.globals == g' && o.s.trace == trace';
    }
    if Returns(c, f, args, g, trace, v, g', trace') {
      var fuel: nat, s :| CallFunction(c, f, args, g, trace, fuel) == Returned(v, s) && s.globals == g' && s.trace
        == trace';
      assert Reached(c, f, code, args, g, trace, fuel);
    }
  }

  lemma {:induction false} MeansNeverStuck(
      c: Context, f: Function, code: Code, args: seq<int>, g: Globals, trace: seq<Event>, n: nat)
    requires Means(c, f, code) && |args| == |f.params|
    ensures !Run(Machine(code, args, c.world), Start(g, trace), n).Stuck?
  {
    var m := Machine(code, args, c.world);
    assert Reached(c, f, code, args, g, trace, n + 1);
    var k: nat :| Agrees(m, CallFunction(c, f, args, g, trace, n + 1), n + 1, Start(g, trace), k);
    if Run(m, Start(g, trace), n).Stuck? {
      HaltsOnce(m, Start(g, trace), n, k);
    }
  }

  lemma {:induction false} LoweredMeans(c: Context, known: set<string>, f: Function, syms: Syms, nextTemp: nat)
    requires FunctionScoped(c.globals, f) && FunctionFaithful(known, c.voids, f)
    requires TableOk(c.globals, known, syms, nextTemp)
    ensures Means(c, f, CodeOf(LowerFunction(c.voids, f, syms, nextTemp)))
  {
    var code := CodeOf(LowerFunction(c.voids, f, syms, nextTemp));
    forall args: seq<int>, g: Globals, trace: seq<Event>, fuel: nat | |args| == |f.params|
      ensures Reached(c, f, code, args, g, trace, fuel)
    {
      var n := LoweringPreserves(c, known, f, syms, nextTemp, args, g, trace, fuel);
    }
  }

  /** The lowered function finishes with a result if and only if the source does, with the same one. */
  lemma {:induction false} LoweringExact(
      c: Context, known: set<string>, f: Function, syms: Syms, nextTemp: nat, args: seq<int>, g: Globals,
      trace: seq<Event>, v: Option<int>, g': Globals, trace': seq<Event>)
    requires FunctionScoped(c.globals, f) && FunctionFaithful(known, c.voids, f)
    requires TableOk(c.globals, known, syms, nextTemp) && |args| == |f.params|
    ensures var m := Machine(CodeOf(LowerFunction(c.voids, f, syms, nextTemp)), args, c.world);
            Finishes(m, g, trace, v, g', trace') <==> Returns(c, f, args, g, trace, v, g', trace')
  {
    LoweredMeans(c, known, f, syms, nextTemp);
    MeansFinishes(c, f, CodeOf(LowerFunction(c.voids, f, syms, nextTemp)), args, g, trace, v, g', trace');
  }

  /** A lowered function never gets stuck: no missing block, no unset temporary, no unset slot. */
  lemma {:induction false} LoweringNeverStuck(
      c: Context, known: set<string>, f: Function, syms: Syms, nextTemp: nat, args: seq<int>, g: Globals,
      trace: seq<Event>, n: nat)
    requires FunctionScoped(c.globals, f) && FunctionFaithful(known, c.voids, f)
    requires TableOk(c.globals, known, syms, nextTemp) && |args| == |f.params|
    ensures !Run(Machine(CodeOf(LowerFunction(c.voids, f, syms, nextTemp)), args, c.world), Start(g, trace), n).Stuck?
  {
    LoweredMeans(c, known, f, syms, nextTemp);
    MeansNeverStuck(c, f, CodeOf(LowerFunction(c.voids, f, syms, nextTemp)), args, g, trace, n);
  }

  // ----- well-formed blocks -----

  /** What every lowered function looks like: terminators only end blocks, branches stay inside the
      function and never go back to its entry, and the allocas are the first instructions of the entry. */
  ghost predicate WellShaped(code: Code, slots: nat) {
    forall b, p | 0 <= b < |code| && 0 <= p < |code[b]| ::
      && TargetsIn(code[b][p], |code|)
      && (code[b][p].IsTerminator() ==> p == |code[b]| - 1)
      && (code[b][p].Alloca? <==> b == 0 && p < slots)
  }

  /** Every block ends in a terminator: what ir_validate_module checks. */
  predicate AllTerminated(code: Code) {
    forall b | 0 <= b < |code| :: Terminated(code[b])
  }

  lemma {:induction false} CodeBlock(fin: State, b: nat)
    requires b < |fin.blocks|
    ensures |CodeOf(fin)| == |fin.blocks|
    ensures CodeOf(fin)[b] == (if b == 0 then fin.slots else []) + fin.blocks[b]
  {
  }

  lemma {:induction false} WellShapedCode(fin: State)
    requires Valid(fin) && Names(fin)
    ensures WellShaped(CodeOf(fin), |fin.slots|)
  {
    var code := CodeOf(fin);
    forall b, p | 0 <= b < |code| && 0 <= p < |code[b]|
      ensures TargetsIn(code[b][p], |code|)
      ensures code[b][p].IsTerminator() ==> p == |code[b]| - 1
      ensures code[b][p].Alloca? <==> b == 0 && p < |fin.slots|
    {
      CodeBlock(fin, b);
      assert ShapeAt(fin.blocks, b) && BlockOk(fin.blocks[b], |fin.blocks|) && SlotAt(fin.slots, fin.nextTemp, p);
    }
  }

  lemma {:induction false} TerminatedCode(fin: State)
    requires fin.blocks != [] && Names(fin)
    ensures AllTerminated(CodeOf(fin)) <==> forall b {:trigger EndAt(fin.blocks, b)} :: EndAt(fin.blocks, b)
  {
    var code := CodeOf(fin);
    forall b | 0 <= b < |code|
      ensures Terminated(code[b]) <==> EndAt(fin.blocks, b)
    {
      CodeBlock(fin, b);
      assert SlotAt(fin.slots, fin.nextTemp, |fin.slots| - 1);
    }
    if AllTerminated(code) {
      forall b
        ensures EndAt(fin.blocks, b)
      {
        assert 0 <= b < |code| ==> Terminated(code[b]);
      }
    }
  }

  /** Lowering a scoped function keeps the shape and the loop stack whatever its conditions are, and
      its blocks pass validation if and only if every lowered condition has a value. */
  lemma {:induction false} LoweringValidates(c: Context, f: Function, syms: Syms, nextTemp: nat)
    requires FunctionScoped(c.globals, f) && TableCovers(c.globals, syms, nextTemp)
    ensures var fin := LowerFunction(c.voids, f, syms, nextTemp);
            && WellShaped(CodeOf(fin), |fin.slots|)
            && fin.loops == []
            && (AllTerminated(CodeOf(fin)) <==> CondsValuedList(c.voids, f.body))
  {
    var fin := LowerFunction(c.voids, f, syms, nextTemp);
    var st := LowerProlog(f, syms, nextTemp);
    var st1 := LowerList(c.voids, f.body, st);
    FunctionPieces(c, f, syms, nextTemp);
    WellShapedCode(fin);
    TerminatedCode(fin);
    if AllClosed(st, st1) {
      forall b
        ensures EndAt(fin.blocks, b)
      {
        assert KeptAt(st1.blocks, fin.blocks, st1.cur, b) && (b != st1.cur ==> EndAt(st1.blocks, b));
      }
    }
    if forall b {:trigger EndAt(fin.blocks, b)} :: EndAt(fin.blocks, b) {
      forall b | (b == st.cur || |st.blocks| <= b) && b != st1.cur
        ensures EndAt(st1.blocks, b)
      {
        assert KeptAt(st1.blocks, fin.blocks, st1.cur, b) && EndAt(fin.blocks, b);
      }
    }
  }

  // ----- whole programs -----

  /** After a function the table still has those globals right whose names it did not declare. */
  lemma {:induction false} TableAfter(c: Context, known: set<string>, f: Function, syms: Syms, nextTemp: nat)
    requires FunctionScoped(c.globals, f) && TableOk(c.globals, known, syms, nextTemp)
    ensures var fin := LowerFunction(c.voids, f, syms, nextTemp);
            TableOk(c.globals, known - Declares(f), fin.syms, fin.nextTemp)
  {
    var st0 := EmptyState(syms, nextTemp);
    var st := LowerProlog(f, syms, nextTemp);
    var st1 := LowerList(c.voids, f.body, st);
    var fin := LowerFunction(c.voids, f, syms, nextTemp);
    FunctionPieces(c, f, syms, nextTemp);
    GoodKept(st0, st, ParamSet(f.params), [], c.globals, known);
    GoodKept(st, st1, DeclsList(f.body), [], c.globals, known - ParamSet(f.params));
    GoodKept(st1, fin, {}, [], c.globals, known - ParamSet(f.params) - DeclsList(f.body));
    assert known - ParamSet(f.params) - DeclsList(f.body) - {} == known - Declares(f);
  }

  /** The names that lowering a function binds in the table. */
  function Declares(f: Function): set<string> {
    ParamSet(f.params) + DeclsList(f.body)
  }

  function GlobalTable(globals: set<string>): Syms {
    map x | x in globals :: Global(x)
  }

  lemma {:induction false} GlobalTableOk(globals: set<string>, nextTemp: nat)
    ensures TableOk(globals, globals, GlobalTable(globals), nextTemp)
  {
  }

  /** Every function uses only names that the functions lowered before it have left right. */
  predicate ProgramFaithful(c: Context, known: set<string>, fs: seq<Function>) {
    fs == [] || (FunctionFaithful(known, c.voids, fs[0]) && ProgramFaithful(c, known - Declares(fs[0]), fs[1..]))
  }

  /** All functions of a program, lowered one after the other over one symbol table that is never
      cleared: each of them still means what its source means. */
  lemma {:induction false} ProgramPreserves(
      c: Context, known: set<string>, fs: seq<Function>, syms: Syms, nextTemp: nat, k: nat, args: seq<int>, g: Globals,
      trace: seq<Event>, fuel: nat)
      returns (n: nat)
    requires (forall i | 0 <= i < |fs| :: FunctionScoped(c.globals, fs[i])) && ProgramFaithful(c, known, fs)
    requires TableOk(c.globals, known, syms, nextTemp)
    requires k < |fs| && |args| == |fs[k].params|
    ensures |LowerAll(c.voids, fs, syms, nextTemp)| == |fs|
    ensures var m := Machine(CodeOf(LowerAll(c.voids, fs, syms, nextTemp)[k]), args, c.world);
            Agrees(m, CallFunction(c, fs[k], args, g, trace, fuel), fuel, Start(g, trace), n)
    decreases fs
  {
    var st := LowerFunction(c.voids, fs[0], syms, nextTemp);
    LowerAllLength(c.voids, fs, syms, nextTemp);
    if k == 0 {
      n := LoweringPreserves(c, known, fs[0], syms, nextTemp, args, g, trace, fuel);
    } else {
      TableAfter(c, known, fs[0], syms, nextTemp);
      n := ProgramPreserves(c, known - Declares(fs[0]), fs[1..], st.syms, st.nextTemp, k - 1, args, g, trace, fuel);
    }
  }

  /** The functions of a program finish exactly as their sources do. */
  lemma {:induction false} ProgramExact(
      c: Context, known: set<string>, fs: seq<Function>, syms: Syms, nextTemp: nat, k: nat, args: seq<int>, g: Globals,
      trace: seq<Event>, v: Option<int>, g': Globals, trace': seq<Event>)
    requires (forall i | 0 <= i < |fs| :: FunctionScoped(c.globals, fs[i])) && ProgramFaithful(c, known, fs)
    requires TableOk(c.globals, known, syms, nextTemp)
    requires k < |fs| && |args| == |fs[k].params|
    ensures |LowerAll(c.voids, fs, syms, nextTemp)| == |fs|
    ensures var m := Machine(CodeOf(LowerAll(c.voids, fs, syms, nextTemp)[k]), args, c.world);
            Finishes(m, g, trace, v, g', trace') <==> Returns(c, fs[k], args, g, trace, v, g', trace')
    decreases fs
  {
    var st := LowerFunction(c.voids, fs[0], syms, nextTemp);
    LowerAllLength(c.voids, fs, syms, nextTemp);
    if k == 0 {
      LoweringExact(c, known, fs[0], syms, nextTemp, args, g, trace, v, g', trace');
    } else {
      TableAfter(c, known, fs[0], syms, nextTemp);
      ProgramExact(c, known - Declares(fs[0]), fs[1..], st.syms, st.nextTemp, k - 1, args, g, trace, v, g', trace');
    }
  }

  lemma {:induction false} LowerAllLength(voids: set<string>, fs: seq<Function>, syms: Syms, nextTemp: nat)
    ensures |LowerAll(voids, fs, syms, nextTemp)| == |fs|
    decreases fs
  {
    if fs == [] {
    } else {
      var st := LowerFunction(voids, fs[0], syms, nextTemp);
      LowerAllLength(voids, fs[1..], st.syms, st.nextTemp);
    }
  }
}
