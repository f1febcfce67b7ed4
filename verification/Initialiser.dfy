/** The initialiser of the globals, which `main` calls first: what it does, and that what it calls is collected. */
module Initialiser {
  import opened Wrappers
  import opened Ast
  import opened Ir
  import opened Source
  import opened Lower
  import opened Scope
  import opened LowerShape
  import opened LowerFacts
  import opened LowerNames
  import opened Preservation
  import opened Reachability
  import opened LoweredCalls
  import opened LiveCalls
  import opened CallNames

  // ----- the initialiser as a function -----

  /** Every variable gets its initial value, or 0. */
  function GlobalStore(s: Stmt): seq<Stmt> {
    match s
    case VarDecl(x, None) => [Assign(x, Const(0))]
    case VarDecl(x, Some(e)) => [Assign(x, e)]
    case _ => []
  }

  function GlobalStores(tops: seq<Stmt>): seq<Stmt> {
    if tops == [] then [] else GlobalStore(tops[0]) + GlobalStores(tops[1..])
  }

  function OtherTop(s: Stmt): seq<Stmt> {
    if s.Assign? || s.ExprStmt? then [s] else []
  }

  function OtherTops(tops: seq<Stmt>): seq<Stmt> {
    if tops == [] then [] else OtherTop(tops[0]) + OtherTops(tops[1..])
  }

  /** What the top level means: first all variables in order, then the assignments and expressions in order. */
  function InitFunction(tops: seq<Stmt>): Function {
    Function("__adan_init", [], GlobalStores(tops) + OtherTops(tops))
  }

  /** The variables of the top level are globals, and only globals are used, as the validator checks. */
  predicate TopScoped(globals: set<string>, s: Stmt) {
    match s
    case VarDecl(x, init) => x in globals && InitIn(init, globals)
    case Assign(x, e) => x in globals && ExprIn(e, globals)
    case ExprStmt(e) => ExprIn(e, globals)
    case _ => true
  }

  predicate TopsScoped(globals: set<string>, tops: seq<Stmt>) {
    forall i | 0 <= i < |tops| :: TopScoped(globals, tops[i])
  }

  // ----- lowering it is lowering that function -----

  lemma {:induction false} ListAppend(voids: set<string>, a: seq<Stmt>, b: seq<Stmt>, st: State)
    ensures LowerList(voids, a + b, st) == LowerList(voids, b, LowerList(voids, a, st))
    decreases a
  {
    if a == [] {
      assert a + b == b;
    } else if Closed(st) {
      assert LowerList(voids, b, st) == st;
    } else {
      assert (a + b)[1..] == a[1..] + b;
      ListAppend(voids, a[1..], b, LowerStmt(voids, a[0], st));
    }
  }

  lemma {:induction false} ListOne(voids: set<string>, s: Stmt, st: State)
    requires !Closed(st)
    ensures LowerList(voids, [s], st) == LowerStmt(voids, s, st)
  {
    assert [s][1..] == [];
  }

  /** One more statement of the top level, which is lowered as `a`. */
  lemma {:induction false} ListFirst(voids: set<string>, a: seq<Stmt>, b: seq<Stmt>, st: State, st1: State, st': State)
    requires LowerList(voids, a, st) == st1 && LowerList(voids, b, st1) == st'
    ensures LowerList(voids, a + b, st) == st'
  {
    ListAppend(voids, a, b, st);
  }

  lemma {:induction false} GlobalsAreStores(voids: set<string>, tops: seq<Stmt>, st: State)
    requires Valid(st) && !Closed(st) && TopsScoped(st.syms.Keys, tops)
    ensures Straight(st, LowerGlobals(voids, tops, st))
    ensures LowerGlobals(voids, tops, st) == LowerList(voids, GlobalStores(tops), st)
    decreases tops
  {
    if tops == [] {
      StraightSelf(st);
    } else {
      assert TopScoped(st.syms.Keys, tops[0]);
      var st1 := GlobalIsStore(voids, tops[0], st);
      GlobalsAreStores(voids, tops[1..], st1);
      StraightTrans(st, st1, LowerGlobals(voids, tops[1..], st1));
      ListFirst(voids, GlobalStore(tops[0]), GlobalStores(tops[1..]), st, st1, LowerGlobals(voids, tops, st));
    }
  }

  lemma {:induction false} GlobalIsStore(voids: set<string>, s: Stmt, st: State) returns (st1: State)
    requires Valid(st) && !Closed(st) && TopScoped(st.syms.Keys, s)
    ensures Straight(st, st1) && st1 == LowerList(voids, GlobalStore(s), st)
    ensures st1 == if s.VarDecl? then LowerStore(voids, st.syms[s.name], s.init, st) else st
  {
    st1 := st;
    StraightSelf(st);
    if s.VarDecl? {
      var e := if s.init.Some? then s.init.value else Const(0);
      st1 := LowerAssign(voids, s.name, e, st);
      LowerAssignOk(voids, s.name, e, st);
      ListOne(voids, Assign(s.name, e), st);
    }
  }

  lemma {:induction false} StraightSelf(st: State)
    requires Valid(st) && !Closed(st)
    ensures Straight(st, st)
  {
    forall b
      ensures GrowsAt(st.blocks, st.blocks, b)
    {
    }
  }

  lemma {:induction false} TopsAreOther(voids: set<string>, tops: seq<Stmt>, st: State)
    requires Valid(st) && !Closed(st) && TopsScoped(st.syms.Keys, tops)
    ensures LowerTops(voids, tops, st) == LowerList(voids, OtherTops(tops), st)
    decreases tops
  {
    if tops == [] {
    } else {
      assert TopScoped(st.syms.Keys, tops[0]);
      var here := OtherTop(tops[0]);
      var st1 := st;
      StraightSelf(st);
      if tops[0].Assign? || tops[0].ExprStmt? {
        st1 := LowerStmt(voids, tops[0], st);
        ListOne(voids, tops[0], st);
        if tops[0].Assign? {
          LowerAssignOk(voids, tops[0].target, tops[0].value, st);
        } else {
          LowerExprOk(voids, tops[0].e, st);
        }
      }
      TopsAreOther(voids, tops[1..], st1);
      ListFirst(voids, here, OtherTops(tops[1..]), st, st1, LowerTops(voids, tops, st));
    }
  }

  /** Closed by a return, the initialiser is the lowered code of that function. */
  lemma {:induction false} InitIsFunction(
      voids: set<string>, globals: set<string>, tops: seq<Stmt>, syms: Syms, nextTemp: nat)
    requires TopsScoped(globals, tops) && TableCovers(globals, syms, nextTemp)
    ensures EmitEnd(LowerInit(voids, tops, syms, nextTemp), Ret(None)) ==
      LowerFunction(voids, InitFunction(tops), syms, nextTemp)
  {
    var st := EmptyState(syms, nextTemp);
    EmptyOk(syms, nextTemp);
    forall i | 0 <= i < |tops|
      ensures TopScoped(syms.Keys, tops[i])
    {
      WiderTop(tops[i], globals, syms.Keys);
    }
    GlobalsAreStores(voids, tops, st);
    TopsAreOther(voids, tops, LowerGlobals(voids, tops, st));
    ListAppend(voids, GlobalStores(tops), OtherTops(tops), st);
    assert LowerProlog(InitFunction(tops), syms, nextTemp) == st;
  }

  lemma {:induction false} WiderTop(s: Stmt, scope: set<string>, wider: set<string>)
    requires TopScoped(scope, s) && scope <= wider
    ensures TopScoped(wider, s)
  {
    match s
    case VarDecl(_, Some(e)) => WiderScope(e, scope, wider);
    case Assign(_, e) => WiderScope(e, scope, wider);
    case ExprStmt(e) => WiderScope(e, scope, wider);
    case _ =>
  }

  // ----- what it does -----

  predicate Plain(globals: set<string>, ss: seq<Stmt>) {
    forall i | 0 <= i < |ss| :: (ss[i].Assign? || ss[i].ExprStmt?) && TopScoped(globals, ss[i])
  }

  lemma {:induction false} PlainAppend(globals: set<string>, a: seq<Stmt>, b: seq<Stmt>)
    requires Plain(globals, a) && Plain(globals, b)
    ensures Plain(globals, a + b)
  {
  }

  lemma {:induction false} TopsPlain(globals: set<string>, tops: seq<Stmt>)
    requires TopsScoped(globals, tops)
    ensures Plain(globals, GlobalStores(tops)) && Plain(globals, OtherTops(tops))
    decreases tops
  {
    if tops == [] {
    } else {
      assert TopScoped(globals, tops[0]);
      TopsPlain(globals, tops[1..]);
    }
  }

  lemma {:induction false} PlainOne(globals: set<string>, voids: set<string>, s: Stmt)
    requires (s.Assign? || s.ExprStmt?) && TopScoped(globals, s)
    ensures WellScoped(s, globals, false) && ScopeAfter(s, globals) == globals
    ensures Faithful(s, globals) && GoodAfter(s, globals) == globals && CondsValued(voids, s) && !Ends(s)
  {
    assert globals - {} == globals;
  }

  /** Nothing is declared in the initialiser, so no name goes wrong in it. */
  lemma {:induction false} PlainFaithful(globals: set<string>, voids: set<string>, ss: seq<Stmt>)
    requires Plain(globals, ss)
    ensures WellScopedList(ss, globals, false) && FaithfulList(ss, globals) && CondsValuedList(voids, ss)
    decreases ss
  {
    if ss == [] {
    } else {
      assert TopScoped(globals, ss[0]);
      PlainOne(globals, voids, ss[0]);
      PlainFaithful(globals, voids, ss[1..]);
    }
  }

  /** The code of the initialiser executes the top level: it finishes exactly as the function above returns, and is
      never stuck. */
  lemma {:induction false} InitRuns(c: Context, tops: seq<Stmt>, nextTemp: nat)
    requires TopsScoped(c.globals, tops)
    ensures Means(c, InitFunction(tops),
                  CodeOf(EmitEnd(LowerInit(c.voids, tops, GlobalTable(c.globals), nextTemp), Ret(None))))
  {
    var f := InitFunction(tops);
    TopsPlain(c.globals, tops);
    PlainAppend(c.globals, GlobalStores(tops), OtherTops(tops));
    PlainFaithful(c.globals, c.voids, f.body);
    assert ParamSet(f.params) + c.globals == c.globals && c.globals + ParamSet(f.params) == c.globals;
    GlobalTableOk(c.globals, nextTemp);
    InitIsFunction(c.voids, c.globals, tops, GlobalTable(c.globals), nextTemp);
    LoweredMeans(c, c.globals, f, GlobalTable(c.globals), nextTemp);
  }

  // ----- what it calls -----

  /** The statements of the top level that the initialiser holds. */
  predicate InInit(s: Stmt) {
    s.VarDecl? || s.Assign? || s.ExprStmt?
  }

  /** `g` is called in the initial value of a variable or in another statement that the initialiser holds. */
  ghost predicate CalledAtTop(tops: seq<Stmt>, g: string) {
    exists i | 0 <= i < |tops| :: InInit(tops[i]) && g in CallsStmt(tops[i])
  }

  lemma {:induction false} LiveAppend(a: seq<Stmt>, b: seq<Stmt>)
    requires forall i | 0 <= i < |a| :: a[i].Assign? || a[i].ExprStmt?
    ensures LiveList(a + b) == LiveList(a) + LiveList(b)
    decreases a
  {
    if a == [] {
      assert a + b == b;
    } else {
      assert (a + b)[1..] == a[1..] + b;
      LiveAppend(a[1..], b);
    }
  }

  lemma {:induction false} LiveTop(s: Stmt, g: string)
    ensures g in LiveList(GlobalStore(s)) + LiveList(OtherTop(s)) <==> InInit(s) && g in CallsStmt(s)
  {
    var a, b := GlobalStore(s), OtherTop(s);
    assert |a| > 0 ==> a[1..] == [];
    assert |b| > 0 ==> b[1..] == [];
  }

  lemma {:induction false} LiveTops(tops: seq<Stmt>, g: string)
    ensures g in LiveList(GlobalStores(tops)) + LiveList(OtherTops(tops)) <==> CalledAtTop(tops, g)
    decreases tops
  {
    if tops == [] {
    } else {
      LiveTops(tops[1..], g);
      LiveTop(tops[0], g);
      LiveAppend(GlobalStore(tops[0]), GlobalStores(tops[1..]));
      LiveAppend(OtherTop(tops[0]), OtherTops(tops[1..]));
      CalledFirst(tops, g);
    }
  }

  lemma {:induction false} CalledFirst(tops: seq<Stmt>, g: string)
    requires tops != []
    ensures CalledAtTop(tops, g) <==> (InInit(tops[0]) && g in CallsStmt(tops[0])) || CalledAtTop(tops[1..], g)
  {
    if CalledAtTop(tops[1..], g) {
      var i :| 0 <= i < |tops[1..]| && InInit(tops[1..][i]) && g in CallsStmt(tops[1..][i]);
      assert tops[i + 1] == tops[1..][i];
    }
    if CalledAtTop(tops, g) {
      var i :| 0 <= i < |tops| && InInit(tops[i]) && g in CallsStmt(tops[i]);
      assert i > 0 ==> tops[1..][i - 1] == tops[i];
    }
  }

  /** The blocks of the initialiser call exactly what those statements of the top level call. */
  lemma {:induction false} InitCalls(
      voids: set<string>, globals: set<string>, tops: seq<Stmt>, syms: Syms, nextTemp: nat, g: string)
    requires TopsScoped(globals, tops) && TableCovers(globals, syms, nextTemp)
    ensures g in Called(LowerInit(voids, tops, syms, nextTemp).blocks) <==> CalledAtTop(tops, g)
  {
    var f := InitFunction(tops);
    InitIsFunction(voids, globals, tops, syms, nextTemp);
    EndCalls(LowerInit(voids, tops, syms, nextTemp), Ret(None));
    TopsPlain(globals, tops);
    PlainAppend(globals, GlobalStores(tops), OtherTops(tops));
    PlainFaithful(globals, voids, f.body);
    assert ParamSet(f.params) + globals == globals;
    FunctionCalls(globals, voids, f, syms, nextTemp);
    LiveAppend(GlobalStores(tops), OtherTops(tops));
    LiveTops(tops, g);
  }

  /** And main calls the initialiser. */
  lemma {:induction false} MainCallsInit(
      voids: set<string>, globals: set<string>, f: Function, syms: Syms, nextTemp: nat)
    requires FunctionScoped(globals, f) && TableCovers(globals, syms, nextTemp) && f.name == "main"
    ensures InitFunction([]).name in Called(LowerFunction(voids, f, syms, nextTemp).blocks)
  {
    FunctionCalls(globals, voids, f, syms, nextTemp);
  }

  /** Where the walk starts: main is collected if it is declared, and so is every declared function that the code of the
      initialiser calls. */
  lemma {:induction false} StartsCollected(
      p: Program, s: set<string>, voids: set<string>, globals: set<string>, syms: Syms, nextTemp: nat)
    requires Walked(p, {}, s, Roots(p)) && TopsScoped(globals, p.tops) && TableCovers(globals, syms, nextTemp)
    ensures "main" in Declared(p) ==> "main" in s
    ensures Called(LowerInit(voids, p.tops, syms, nextTemp).blocks) * Declared(p) <= s
  {
    forall g | g in Called(LowerInit(voids, p.tops, syms, nextTemp).blocks) && g in Declared(p)
      ensures g in s
    {
      InitCalls(voids, globals, p.tops, syms, nextTemp, g);
      var i :| 0 <= i < |p.tops| && g in CallsStmt(p.tops[i]);
      CallsAmong(p.tops, i);
    }
  }

  lemma {:induction false} CallsAmong(ss: seq<Stmt>, i: nat)
    requires i < |ss|
    ensures CallsStmt(ss[i]) <= CallsList(ss)
    decreases ss
  {
    if i == 0 {
    } else {
      CallsAmong(ss[1..], i - 1);
    }
  }

  /** Nothing is collected that calls do not lead to from main or from a name in the top-level statements. */
  lemma {:induction false} CollectedFromStarts(p: Program, s: set<string>, g: string)
    requires Walked(p, {}, s, Roots(p)) && g in s
    ensures exists f :: (f == "main" || Named(WrittenList(p.tops), f)) && ReachableFrom(p, {f}, g)
  {
    CollectedExactly(p, s);
    var path: seq<string> :|
      |path| > 0 && path[0] in Roots(p) && path[0] in Declared(p) && path[|path| - 1] == g && Chain(p, path);
    ListWritten(p.tops, path[0]);
    assert ReachableFrom(p, {path[0]}, g);
  }
}
