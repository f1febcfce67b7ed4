/** What a structured function body means: lexical scopes, loops with break and continue, return,
    and calls seen as events. Written independently of how the body is lowered. */
module Source {
  import opened Wrappers
  import opened Ast
  import opened Ir

  // ----- scopes -----

  /** Scopes, outermost first. */
  type Env = seq<map<string, int>>

  function Keys(env: Env): set<string> {
    if env == [] then {} else Keys(env[..|env| - 1]) + env[|env| - 1].Keys
  }

  /** The innermost binding of `x`. */
  function Lookup(env: Env, x: string): int
    requires x in Keys(env)
  {
    var top := env[|env| - 1];
    if x in top then top[x] else Lookup(env[..|env| - 1], x)
  }

  /** Change the innermost binding of `x`. */
  function Update(env: Env, x: string, n: int): (r: Env)
    requires x in Keys(env)
    ensures |r| == |env|
  {
    var top := env[|env| - 1];
    var outer := env[..|env| - 1];
    if x in top then outer + [top[x := n]] else Update(outer, x, n) + [top]
  }

  function Push(env: Env): Env {
    env + [map[]]
  }

  function Pop(env: Env): Env
    requires |env| > 0
  {
    env[..|env| - 1]
  }

  /** Bind `x` in the innermost scope. */
  function Declare(env: Env, x: string, n: int): Env
    requires |env| > 0
  {
    env[..|env| - 1] + [env[|env| - 1][x := n]]
  }

  // ----- expressions -----

  /** What a body may mention: the globals, the functions that return nothing, and the world. */
  datatype Context = Context(globals: set<string>, voids: set<string>, world: World)

  datatype Mem = Mem(env: Env, globals: Globals, trace: seq<Event>)

  function Read(c: Context, s: Mem, x: string): Option<int> {
    if x in Keys(s.env) then Some(Lookup(s.env, x))
    else if x in c.globals then Some(if x in s.globals then s.globals[x] else 0)
    else None
  }

  function Write(c: Context, s: Mem, x: string, n: int): Mem {
    if x in Keys(s.env) then s.(env := Update(s.env, x, n))
    else if x in c.globals then s.(globals := s.globals[x := n])
    else s
  }

  /** The value of an expression, None when it has none, and the store after its calls. */
  function Eval(c: Context, e: Expr, s: Mem): (r: (Option<int>, Mem))
    ensures r.1.env == s.env
    decreases e, 1
  {
    match e
    case Const(n) => (Some(n), s)
    case Var(x) => (Read(c, s, x), s)
    case Binary(op, l, r) =>
      var (a, s1) := Eval(c, l, s);
      var (b, s2) := Eval(c, r, s1);
      (if a.Some? && b.Some? then Some(c.world.op(op, a.value, b.value)) else None, s2)
    case Call(f, es) =>
      var (ns, s1) := EvalArgs(c, es, s);
      EvalCall(c, Resolve(f), ns, s1)
  }

  function EvalCall(c: Context, f: string, ns: seq<Option<int>>, s: Mem): (r: (Option<int>, Mem))
    ensures r.1.env == s.env
  {
    var a := c.world.call(s.trace + [Event(f, ns)], s.globals, f, ns);
    (if f in c.voids then None else Some(a.n), s.(globals := a.globals, trace := a.trace))
  }

  function EvalArgs(c: Context, es: seq<Expr>, s: Mem): (r: (seq<Option<int>>, Mem))
    ensures |r.0| == |es| && r.1.env == s.env
    decreases es, 0
  {
    if es == [] then ([], s) else
    var (n, s1) := Eval(c, es[0], s);
    var (ns, s2) := EvalArgs(c, es[1..], s1);
    ([n] + ns, s2)
  }

  /** An initialiser that is missing, or that has no value, counts as 0. */
  function EvalOr0(c: Context, e: Option<Expr>, s: Mem): (r: (int, Mem))
    ensures r.1.env == s.env
  {
    if e.None? then (0, s) else
    var (n, s1) := Eval(c, e.value, s);
    (if n.Some? then n.value else 0, s1)
  }

  // ----- statements -----

  datatype Outcome =
    | Normal(s: Mem)
    | Broke(s: Mem)
    | Continued(s: Mem)
    | Returned(result: Option<int>, s: Mem)
    | OutOfFuel
    | Wrong           // a condition without a value

  function PopOutcome(o: Outcome): Outcome
    requires o.Normal? || o.Broke? || o.Continued? ==> |o.s.env| > 0
  {
    match o
    case Normal(s) => Normal(s.(env := Pop(s.env)))
    case Broke(s) => Broke(s.(env := Pop(s.env)))
    case Continued(s) => Continued(s.(env := Pop(s.env)))
    case _ => o
  }

  function Exec(c: Context, stmt: Stmt, s: Mem, fuel: nat): (o: Outcome)
    requires |s.env| > 0
    ensures o.Normal? || o.Broke? || o.Continued? ==> |o.s.env| == |s.env|
    decreases fuel, stmt, 0
  {
    match stmt
    case ExprStmt(e) => Normal(Eval(c, e, s).1)
    case Return(None) => Returned(None, s)
    case Return(Some(e)) => var (n, s1) := Eval(c, e, s); Returned(n, s1)
    case Block(body) => ExecBlock(c, body, s, fuel)
    case If(cond, thn, els) =>
      var (n, s1) := Eval(c, cond, s);
      if n.None? then Wrong
      else if n.value != 0 then ExecBlock(c, thn, s1, fuel)
      else if els.Else? then ExecBlock(c, els.body, s1, fuel)
      else Normal(s1)
    case While(cond, body) => ExecLoop(c, cond, body, None, s, fuel)
    case For(x, init, cond, step, body) =>
      var s0 := s.(env := Push(s.env));
      var (n, s1) := EvalOr0(c, init, s0);
      PopOutcome(ExecLoop(c, cond, body, Some(step), s1.(env := Declare(s1.env, x, n)), fuel))
    case Break => Broke(s)
    case Continue => Continued(s)
    case VarDecl(x, init) =>
      var (n, s1) := EvalOr0(c, init, s);
      Normal(s1.(env := Declare(s1.env, x, n)))
    case Assign(x, e) => ExecAssign(c, x, e, s)
  }

  function ExecAssign(c: Context, x: string, e: Expr, s: Mem): (o: Outcome)
    ensures o.Normal? && |o.s.env| == |s.env|
  {
    var (n, s1) := EvalOr0(c, Some(e), s);
    Normal(Write(c, s1, x, n))
  }

  function ExecList(c: Context, ss: seq<Stmt>, s: Mem, fuel: nat): (o: Outcome)
    requires |s.env| > 0
    ensures o.Normal? || o.Broke? || o.Continued? ==> |o.s.env| == |s.env|
    decreases fuel, ss, 0
  {
    if ss == [] then Normal(s) else
    match Exec(c, ss[0], s, fuel)
    case Normal(s1) => ExecList(c, ss[1..], s1, fuel)
    case o => o
  }

  function ExecBlock(c: Context, ss: seq<Stmt>, s: Mem, fuel: nat): (o: Outcome)
    ensures o.Normal? || o.Broke? || o.Continued? ==> |o.s.env| == |s.env|
    decreases fuel, ss, 1
  {
    PopOutcome(ExecList(c, ss, s.(env := Push(s.env)), fuel))
  }

  /** Each turn of a loop takes one unit of fuel. */
  function ExecLoop(c: Context, cond: Expr, body: seq<Stmt>, step: Option<Increment>, s: Mem, fuel: nat): (o: Outcome)
    ensures o.Normal? || o.Broke? || o.Continued? ==> |o.s.env| == |s.env|
    ensures !o.Broke? && !o.Continued?
    decreases fuel, body, 2
  {
    if fuel == 0 then OutOfFuel else
    var (n, s1) := Eval(c, cond, s);
    if n.None? then Wrong
    else if n.value == 0 then Normal(s1)
    else
      match ExecBlock(c, body, s1, fuel - 1)
      case Normal(s2) => ExecLoop(c, cond, body, step, AfterStep(c, step, s2), fuel - 1)
      case Continued(s2) => ExecLoop(c, cond, body, step, AfterStep(c, step, s2), fuel - 1)
      case Broke(s2) => Normal(s2)
      case o => o
  }

  function AfterStep(c: Context, step: Option<Increment>, s: Mem): (r: Mem)
    ensures |r.env| == |s.env|
  {
    if step.None? then s else ExecAssign(c, step.value.target, step.value.value, s).s
  }

  // ----- functions -----

  function BindParams(ps: seq<string>, args: seq<int>, s: Mem): Mem
    requires |ps| <= |args| && |s.env| > 0
    decreases ps
  {
    if ps == [] then s else BindParams(ps[1..], args[1..], s.(env := Declare(s.env, ps[0], args[0])))
  }

  /** Calling a function: `main` starts with the initialiser of the globals, the body has a scope
      inside the one of the parameters, and falling off its end returns nothing. */
  function CallFunction(c: Context, f: Function, args: seq<int>, g: Globals, trace: seq<Event>, fuel: nat): Outcome
    requires |args| == |f.params|
  {
    var s0 := Mem([map[]], g, trace);
    var s1 := if f.name == "main" then EvalCall(c, "__adan_init", [], s0).1 else s0;
    match ExecBlock(c, f.body, BindParams(f.params, args, s1), fuel)
    case Normal(s) => Returned(None, s)
    case o => o
  }

  // ----- scopes stay in step with the program text -----

  predicate SameUpTo(a: Env, b: Env, n: nat) {
    n <= |a| == |b| && forall i | 0 <= i < n :: a[i].Keys == b[i].Keys
  }

  lemma {:induction false} SameKeys(a: Env, b: Env)
    requires SameUpTo(a, b, |a|)
    ensures Keys(a) == Keys(b)
    decreases |a|
  {
    if a == [] {
    } else {
      SameKeys(Pop(a), Pop(b));
    }
  }

  lemma {:induction false} UpdateKeys(env: Env, x: string, n: int)
    requires x in Keys(env)
    ensures SameUpTo(env, Update(env, x, n), |env|)
    decreases |env|
  {
    if x !in env[|env| - 1] {
      UpdateKeys(Pop(env), x, n);
    }
  }

  /** Only a declaration changes which names a statement leaves in scope, and only in the innermost one. */
  predicate KeepsScopes(stmt: Stmt, env: Env, o: Outcome) {
    match o
    case Normal(s) =>
      && |env| > 0
      && SameUpTo(env, s.env, |env| - 1)
      && s.env[|env| - 1].Keys == env[|env| - 1].Keys + if stmt.VarDecl? then {stmt.name} else {}
    case Broke(s) => SameUpTo(env, s.env, |env|)
    case Continued(s) => SameUpTo(env, s.env, |env|)
    case _ => true
  }

  predicate KeepsOuter(env: Env, o: Outcome) {
    o.Normal? || o.Broke? || o.Continued? ==> |env| > 0 && SameUpTo(env, o.s.env, |env| - 1)
  }

  predicate KeepsAll(env: Env, o: Outcome) {
    o.Normal? || o.Broke? || o.Continued? ==> SameUpTo(env, o.s.env, |env|)
  }

  lemma {:induction false} ExecScopes(c: Context, stmt: Stmt, s: Mem, fuel: nat)
    requires |s.env| > 0
    ensures KeepsScopes(stmt, s.env, Exec(c, stmt, s, fuel))
    decreases fuel, stmt, 0
  {
    match stmt
    case Block(body) => ExecBlockScopes(c, body, s, fuel);
    case If(cond, thn, els) =>
      var (n, s1) := Eval(c, cond, s);
      ExecBlockScopes(c, thn, s1, fuel);
      if els.Else? {
        ExecBlockScopes(c, els.body, s1, fuel);
      }
    case While(cond, body) => ExecLoopScopes(c, cond, body, None, s, fuel);
    case For(x, init, cond, step, body) =>
      var (n, s1) := EvalOr0(c, init, s.(env := Push(s.env)));
      ExecLoopScopes(c, cond, body, Some(step), s1.(env := Declare(s1.env, x, n)), fuel);
    case Assign(x, e) => AssignScopes(c, x, e, s);
    case _ =>
  }

  lemma {:induction false} AssignScopes(c: Context, x: string, e: Expr, s: Mem)
    ensures KeepsAll(s.env, ExecAssign(c, x, e, s))
  {
    if x in Keys(s.env) {
      UpdateKeys(s.env, x, EvalOr0(c, Some(e), s).0);
    }
  }

  lemma {:induction false} ExecListScopes(c: Context, ss: seq<Stmt>, s: Mem, fuel: nat)
    requires |s.env| > 0
    ensures KeepsOuter(s.env, ExecList(c, ss, s, fuel))
    decreases fuel, ss, 0
  {
    if ss == [] {
    } else {
      ExecScopes(c, ss[0], s, fuel);
      var o := Exec(c, ss[0], s, fuel);
      if o.Normal? {
        ExecListScopes(c, ss[1..], o.s, fuel);
      }
    }
  }

  lemma {:induction false} ExecBlockScopes(c: Context, ss: seq<Stmt>, s: Mem, fuel: nat)
    ensures KeepsAll(s.env, ExecBlock(c, ss, s, fuel))
    decreases fuel, ss, 1
  {
    ExecListScopes(c, ss, s.(env := Push(s.env)), fuel);
  }

  lemma {:induction false} ExecLoopScopes(c: Context, cond: Expr, body: seq<Stmt>, step: Option<Increment>, s: Mem,
        fuel: nat)
    ensures KeepsAll(s.env, ExecLoop(c, cond, body, step, s, fuel))
    decreases fuel, body, 2
  {
    if fuel == 0 {
    } else {
      var (n, s1) := Eval(c, cond, s);
      ExecBlockScopes(c, body, s1, fuel - 1);
      var o := ExecBlock(c, body, s1, fuel - 1);
      if o.Normal? || o.Continued? {
        if step.Some? {
          AssignScopes(c, step.value.target, step.value.value, o.s);
        }
        ExecLoopScopes(c, cond, body, step, AfterStep(c, step, o.s), fuel - 1);
      }
    }
  }
}
