/** Calls by the names they are written with: a member call goes to the function of that name. */
module CallNames {
  import opened Wrappers
  import opened Ast
  import opened Ir
  import opened Lower
  import opened Reachability
  import opened LoweredCalls

  // ----- the function that is called -----

  /** The current block ends with a call of `f` whose value, if `f` has one, is the operand `o`. */
  ghost predicate EndsInCall(st: State, o: Option<Operand>, voids: set<string>, f: string, os: seq<Option<Operand>>) {
    st.cur < |st.blocks| && st.blocks[st.cur] != [] &&
    match st.blocks[st.cur][|st.blocks[st.cur]| - 1]
    case CallFn(out, callee, args) =>
      && callee == f && args == os && (out.None? <==> f in voids)
      && o == (if out.None? then None else Some(Temp(out.value)))
    case _ => false
  }

  lemma {:induction false} CallEmitted(voids: set<string>, f: string, os: seq<Option<Operand>>, st: State)
    requires st.cur < |st.blocks|
    ensures var (st', o) := EmitCall(voids, f, os, st); EndsInCall(st', o, voids, f, os)
  {
  }

  /** A call of `__member_m`, which `x.m(...)` is read as, becomes a call of `m`, whatever `m` is. */
  lemma {:induction false} MemberCallLowered(voids: set<string>, m: string, es: seq<Expr>, st: State)
    requires st.cur < |st.blocks|
    ensures var (st', o) := LowerExpr(voids, Call("__member_" + m, es), st);
      EndsInCall(st', o, voids, m, LowerArgs(voids, es, st).1)
  {
    var f := "__member_" + m;
    assert "__member_" <= f && f[9..] == m;
    ArgsCalls(voids, es, st);
    CallEmitted(voids, m, LowerArgs(voids, es, st).1, LowerArgs(voids, es, st).0);
  }

  /** Any other call goes to the function that it names. */
  lemma {:induction false} PlainCallLowered(voids: set<string>, f: string, es: seq<Expr>, st: State)
    requires st.cur < |st.blocks| && !("__member_" <= f)
    ensures var (st', o) := LowerExpr(voids, Call(f, es), st);
      EndsInCall(st', o, voids, f, LowerArgs(voids, es, st).1)
  {
    ArgsCalls(voids, es, st);
    CallEmitted(voids, f, LowerArgs(voids, es, st).1, LowerArgs(voids, es, st).0);
  }

  // ----- the names in the tree -----

  /** The callees of an expression as they are written. */
  function Written(e: Expr): set<string>
    decreases e, 1
  {
    match e
    case Binary(_, l, r) => Written(l) + Written(r)
    case Call(f, es) => {f} + WrittenArgs(es)
    case _ => {}
  }

  function WrittenArgs(es: seq<Expr>): set<string>
    decreases es, 0
  {
    set i, g | 0 <= i < |es| && g in Written(es[i]) :: g
  }

  function WrittenOpt(e: Option<Expr>): set<string> {
    match e
    case None => {}
    case Some(e) => Written(e)
  }

  /** The callees of statements as they are written, in everything that stands in them. */
  function WrittenStmt(s: Stmt): set<string>
    decreases s
  {
    match s
    case ExprStmt(e) => Written(e)
    case Return(e) => WrittenOpt(e)
    case Block(body) => WrittenList(body)
    case If(cond, thn, NoElse) => Written(cond) + WrittenList(thn)
    case If(cond, thn, Else(els)) => Written(cond) + WrittenList(thn) + WrittenList(els)
    case While(cond, body) => Written(cond) + WrittenList(body)
    case For(_, init, cond, step, body) => WrittenOpt(init) + Written(cond) + Written(step.value) + WrittenList(body)
    case Break => {}
    case Continue => {}
    case VarDecl(_, init) => WrittenOpt(init)
    case Assign(_, e) => Written(e)
  }

  function WrittenList(ss: seq<Stmt>): set<string>
    decreases ss
  {
    set i, g | 0 <= i < |ss| && g in WrittenStmt(ss[i]) :: g
  }

  /** `g` is called under one of these names. */
  predicate Named(written: set<string>, g: string) {
    ("__member_" + g) in written || (g in written && !("__member_" <= g))
  }

  lemma {:induction false} ResolvedNamed(f: string, g: string)
    ensures g == Resolve(f) <==> Named({f}, g)
  {
    if "__member_" <= f {
      assert f == "__member_" + f[9..];
    }
    assert ("__member_" + g)[9..] == g;
  }

  /** The calls of an expression are what is written in it, each name taken as above. */
  lemma {:induction false} CallsWritten(e: Expr, g: string)
    ensures g in Calls(e) <==> Named(Written(e), g)
    decreases e, 1
  {
    match e
    case Binary(_, l, r) =>
      CallsWritten(l, g);
      CallsWritten(r, g);
    case Call(f, es) =>
      ResolvedNamed(f, g);
      ArgsWritten(es, g);
    case _ =>
  }

  lemma {:induction false} ArgsWritten(es: seq<Expr>, g: string)
    ensures g in CallsArgs(es) <==> Named(WrittenArgs(es), g)
    decreases es, 0
  {
    if es == [] {
    } else {
      CallsWritten(es[0], g);
      ArgsWritten(es[1..], g);
      WrittenFirst(es);
    }
  }

  lemma {:induction false} WrittenFirst(es: seq<Expr>)
    requires es != []
    ensures WrittenArgs(es) == Written(es[0]) + WrittenArgs(es[1..])
  {
    forall h
      ensures h in WrittenArgs(es) <==> h in Written(es[0]) + WrittenArgs(es[1..])
    {
      if h in WrittenArgs(es[1..]) {
        var i :| 0 <= i < |es[1..]| && h in Written(es[1..][i]);
        assert es[i + 1] == es[1..][i];
      }
      if h in WrittenArgs(es) {
        var i :| 0 <= i < |es| && h in Written(es[i]);
        assert i > 0 ==> es[1..][i - 1] == es[i];
      }
    }
  }

  lemma {:induction false} StmtWritten(s: Stmt, g: string)
    ensures g in CallsStmt(s) <==> Named(WrittenStmt(s), g)
    decreases s, 1
  {
    match s
    case ExprStmt(e) => CallsWritten(e, g);
    case Return(e) => OptWritten(e, g);
    case Block(body) => ListWritten(body, g);
    case If(cond, thn, els) =>
      CallsWritten(cond, g);
      ListWritten(thn, g);
      if els.Else? {
        ListWritten(els.body, g);
      }
    case While(cond, body) =>
      CallsWritten(cond, g);
      ListWritten(body, g);
    case For(_, init, cond, step, body) =>
      OptWritten(init, g);
      CallsWritten(cond, g);
      CallsWritten(step.value, g);
      ListWritten(body, g);
    case VarDecl(_, init) => OptWritten(init, g);
    case Assign(_, e) => CallsWritten(e, g);
    case _ =>
  }

  lemma {:induction false} OptWritten(e: Option<Expr>, g: string)
    ensures g in CallsOpt(e) <==> Named(WrittenOpt(e), g)
  {
    if e.Some? {
      CallsWritten(e.value, g);
    }
  }

  /** The walk over statements finds exactly the functions that are called in them. */
  lemma {:induction false} ListWritten(ss: seq<Stmt>, g: string)
    ensures g in CallsList(ss) <==> Named(WrittenList(ss), g)
    decreases ss, 0
  {
    if ss == [] {
    } else {
      StmtWritten(ss[0], g);
      ListWritten(ss[1..], g);
      WrittenFirstStmt(ss);
    }
  }

  lemma {:induction false} WrittenFirstStmt(ss: seq<Stmt>)
    requires ss != []
    ensures WrittenList(ss) == WrittenStmt(ss[0]) + WrittenList(ss[1..])
  {
    forall h
      ensures h in WrittenList(ss) <==> h in WrittenStmt(ss[0]) + WrittenList(ss[1..])
    {
      if h in WrittenList(ss[1..]) {
        var i :| 0 <= i < |ss[1..]| && h in WrittenStmt(ss[1..][i]);
        assert ss[i + 1] == ss[1..][i];
      }
      if h in WrittenList(ss) {
        var i :| 0 <= i < |ss| && h in WrittenStmt(ss[i]);
        assert i > 0 ==> ss[1..][i - 1] == ss[i];
      }
    }
  }

  // ----- what is collected -----

  /** The names in the top-level statements and in the bodies of the functions of `s`, first declarations counting. */
  ghost predicate WrittenIn(p: Program, s: set<string>, name: string) {
    || name in WrittenList(p.tops)
    || exists f | f in s && Find(p.functions, f).Some? :: name in WrittenList(Find(p.functions, f).value.body)
  }

  /** What is called by its name or as a member, at the top level or in a collected function, is collected. */
  lemma {:induction false} CalledIsCollected(p: Program, s: set<string>, m: string)
    requires Walked(p, {}, s, Roots(p)) && m in Declared(p)
    requires WrittenIn(p, s, "__member_" + m) || (WrittenIn(p, s, m) && !("__member_" <= m))
    ensures m in s
  {
    CollectedExactly(p, s);
    if Named(WrittenList(p.tops), m) {
      ListWritten(p.tops, m);
    } else {
      var f :| f in s && Find(p.functions, f).Some? && Named(WrittenList(Find(p.functions, f).value.body), m);
      ListWritten(Find(p.functions, f).value.body, m);
      assert Callees(p, f) <= s;
    }
  }

  /** Nothing else is collected: but for main, every collected function is called at the top level or in a collected
      function. */
  lemma {:induction false} CollectedIsCalled(p: Program, s: set<string>, m: string)
    requires Walked(p, {}, s, Roots(p)) && m in s && m != "main"
    ensures m in Declared(p)
    ensures WrittenIn(p, s, "__member_" + m) || (WrittenIn(p, s, m) && !("__member_" <= m))
  {
    CollectedExactly(p, s);
    var path: seq<string> :|
      |path| > 0 && path[0] in Roots(p) && path[0] in Declared(p) && path[|path| - 1] == m && Chain(p, path);
    ListWritten(p.tops, m);
    if |path| > 1 {
      var f := path[|path| - 2];
      assert m in Callees(p, f);
      ClosedContains(p, s, path, |path| - 2);
      ListWritten(Find(p.functions, f).value.body, m);
    }
  }
}
