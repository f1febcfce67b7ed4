/** A whole program through the lowering as it runs. */
module Compiled {
  import opened Ast
  import opened Ir
  import opened Source
  import opened Scope
  import opened Lower
  import opened Preservation
  import opened LowererModule

  ghost predicate Lowerable(c: Context, fs: seq<Function>) {
    (forall i | 0 <= i < |fs| :: FunctionScoped(c.globals, fs[i])) && ProgramFaithful(c, c.globals, fs)
  }

  /** The code finishes exactly as the function returns, and is never stuck. */
  ghost predicate RunsAs(c: Context, f: Function, code: Code) {
    && (forall args: seq<int>, g, trace, v, g', trace' | |args| == |f.params| ::
          Finishes(Machine(code, args, c.world), g, trace, v, g', trace') <==> Returns(c, f, args, g, trace, v, g',
            trace'))
    && (forall args: seq<int>, g, trace, n: nat | |args| == |f.params| ::
          !Run(Machine(code, args, c.world), Start(g, trace), n).Stuck?)
  }

  /** Runs are deterministic: code that means what a function means runs exactly as it does. */
  lemma {:induction false} MeansRunsAs(c: Context, f: Function, code: Code)
    requires Means(c, f, code)
    ensures RunsAs(c, f, code)
  {
    forall args: seq<int>, g, trace, v, g', trace' | |args| == |f.params|
      ensures Finishes(Machine(code, args, c.world), g, trace, v, g', trace') <==>
        Returns(c, f, args, g, trace, v, g', trace')
    {
      MeansFinishes(c, f, code, args, g, trace, v, g', trace');
    }
    forall args: seq<int>, g, trace, n: nat | |args| == |f.params|
      ensures !Run(Machine(code, args, c.world), Start(g, trace), n).Stuck?
    {
      MeansNeverStuck(c, f, code, args, g, trace, n);
    }
  }

  lemma {:induction false} FunctionMeans(c: Context, fs: seq<Function>, i: nat)
    requires Lowerable(c, fs) && i < |fs|
    ensures |LowerAll(c.voids, fs, GlobalTable(c.globals), 1)| == |fs|
    ensures Means(c, fs[i], CodeOf(LowerAll(c.voids, fs, GlobalTable(c.globals), 1)[i]))
  {
    GlobalTableOk(c.globals, 1);
    LowerAllLength(c.voids, fs, GlobalTable(c.globals), 1);
    var m := CodeOf(LowerAll(c.voids, fs, GlobalTable(c.globals), 1)[i]);
    forall args: seq<int>, g: Globals, trace: seq<Event>, fuel: nat | |args| == |fs[i].params|
      ensures Reached(c, fs[i], m, args, g, trace, fuel)
    {
      var n := ProgramPreserves(c, c.globals, fs, GlobalTable(c.globals), 1, i, args, g, trace, fuel);
    }
  }

  /** Every function of a program lowered by a new lowerer means what its source means. */
  method CompileProgram(voids: set<string>, globals: set<string>, fs: seq<Function>) returns (code: seq<Code>)
    requires forall i | 0 <= i < |fs| :: NestingList(fs[i].body) <= MAX_LOOPS
    ensures |code| == |fs|
    ensures forall c: Context, i | c.globals == globals && c.voids == voids && Lowerable(c, fs) && 0 <= i < |fs| ::
      Means(c, fs[i], code[i]) && RunsAs(c, fs[i], code[i])
  {
    var lowerer := new Lowerer(voids, globals);
    ghost var syms, nextTemp := lowerer.syms, lowerer.nextTemp;
    code := lowerer.LowerProgram(fs);
    forall c: Context, i | c.globals == globals && c.voids == voids && Lowerable(c, fs) && 0 <= i < |fs|
      ensures Means(c, fs[i], code[i]) && RunsAs(c, fs[i], code[i])
    {
      FunctionMeans(c, fs, i);
      MeansRunsAs(c, fs[i], code[i]);
    }
  }
}
