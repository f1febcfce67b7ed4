/** Running the blocks of a statement does what the statement means, however it ends. One lemma
    per kind of statement says to which block, memory and trace each outcome leads; loops are followed turn
    by turn, with the rounds that are left as the measure, and a source that is still running corresponds
    to code that has taken as many steps. */
module StmtSimulation {
  import opened Wrappers
  import opened Slices
  import opened Ast
  import opened Ir
  import opened Source
  import opened Lower
  import opened Scope
  import opened LowerShape
  import opened LowerFacts
  import opened LowerNames
  import opened Relation
  import opened ExprSimulation

  // ----- how a statement can end -----

  /** Where control is to be, depending on the outcome, and the slots of the scopes open there. */
  datatype Exits = Exits(block: nat, pos: nat, loops: seq<Targets>, frames: Frames)

  ghost predicate Arrives(
      c: Context, m: Machine, fin: State, fr: Frames, start: Config, n: nat, b: nat, p: nat, mem: Memory, s: Mem)
  {
    Run(m, start, n) == At(b, p, mem) && Rel(c, s, fr, fin, mem)
  }

  ghost predicate Lands(
      c: Context, m: Machine, fin: State, x: Exits, o: Outcome, fuel: nat, start: Config, n: nat, mem: Memory)
  {
    match o
    case Normal(s) => Arrives(c, m, fin, x.frames, start, n, x.block, x.pos, mem, s)
    case Broke(s) => x.loops != [] && Arrives(c, m, fin, x.frames, start, n, x.loops[|x.loops| - 1].onBreak, 0, mem, s)
    case Continued(s) =>
      x.loops != [] && Arrives(c, m, fin, x.frames, start, n, x.loops[|x.loops| - 1].onContinue, 0, mem, s)
    case Returned(v, s) => Run(m, start, n) == Done(v, s.globals, s.trace)
    case OutOfFuel => fuel <= n && Run(m, start, n).At?
    case Wrong => false
  }

  function EndOf(fin: State, st: State, loops: seq<Targets>, fr: Frames): Exits
    requires st.cur < |st.blocks|
  {
    Exits(st.cur, Offset(fin, st.cur) + |st.blocks[st.cur]|, loops, fr)
  }

  lemma {:induction false} LandsAfter(
      c: Context, m: Machine, fin: State, x: Exits, o: Outcome, fuel: nat, start: Config, j: nat, mid: Config, n: nat,
      mem: Memory)
    requires Run(m, start, j) == mid && Lands(c, m, fin, x, o, fuel, mid, n, mem)
    ensures Lands(c, m, fin, x, o, fuel, start, j + n, mem)
    ensures 0 < j ==> Lands(c, m, fin, x, o, fuel + 1, start, j + n, mem)
  {
    RunAdd(m, start, j, n);
  }

  /** The innermost scope is left; only a normal end cares where. */
  lemma {:induction false} LandsPop(
      c: Context, m: Machine, fin: State, x: Exits, x': Exits, o: Outcome, fuel: nat, start: Config, n: nat,
      mem: Memory)
    requires Lands(c, m, fin, x, o, fuel, start, n, mem) && x.frames != []
    requires o.Normal? || o.Broke? || o.Continued? ==> |o.s.env| > 0
    requires x'.loops == x.loops && x'.frames == x.frames[..|x.frames| - 1]
    requires o.Normal? ==> x'.block == x.block && x'.pos == x.pos
    ensures Lands(c, m, fin, x', PopOutcome(o), fuel, start, n, mem)
  {
    if o.Normal? || o.Broke? || o.Continued? {
      RelPop(c, o.s, x.frames, fin, mem);
    }
  }

  /** Both: some steps before, and the innermost scope left after. */
  lemma {:induction false} LandsOut(
      c: Context, m: Machine, fin: State, x: Exits, x': Exits, o: Outcome, fuel: nat, start: Config, j: nat,
      mid: Config, n: nat, mem: Memory)
    requires Run(m, start, j) == mid && Lands(c, m, fin, x, o, fuel, mid, n, mem) && x.frames != []
    requires o.Normal? || o.Broke? || o.Continued? ==> |o.s.env| > 0
    requires x'.loops == x.loops && x'.frames == x.frames[..|x.frames| - 1]
    requires o.Normal? ==> x'.block == x.block && x'.pos == x.pos
    ensures Lands(c, m, fin, x', PopOutcome(o), fuel, start, j + n, mem)
  {
    LandsAfter(c, m, fin, x, o, fuel, start, j, mid, n, mem);
    LandsPop(c, m, fin, x, x', o, fuel, start, j + n, mem);
  }

  // ----- scopes -----

  lemma {:induction false} VisibleAfter(c: Context, stmt: Stmt, s: Mem, fuel: nat)
    requires |s.env| > 0
    ensures var o := Exec(c, stmt, s, fuel);
            && (o.Normal? ==> Visible(c, o.s) == ScopeAfter(stmt, Visible(c, s)))
            && (o.Broke? || o.Continued? ==> Visible(c, o.s) == Visible(c, s))
  {
    ExecScopes(c, stmt, s, fuel);
    var o := Exec(c, stmt, s, fuel);
    if o.Normal? {
      SameKeys(Pop(s.env), Pop(o.s.env));
    } else if o.Broke? || o.Continued? {
      SameKeys(s.env, o.s.env);
    }
  }

  lemma {:induction false} VisibleAfterBlock(c: Context, ss: seq<Stmt>, s: Mem, fuel: nat)
    ensures var o := ExecBlock(c, ss, s, fuel);
            o.Normal? || o.Broke? || o.Continued? ==> Visible(c, o.s) == Visible(c, s)
  {
    ExecBlockScopes(c, ss, s, fuel);
    var o := ExecBlock(c, ss, s, fuel);
    if o.Normal? || o.Broke? || o.Continued? {
      SameKeys(s.env, o.s.env);
    }
  }

  // ----- statements -----

  ghost predicate Sound(c: Context, stmt: Stmt, s: Mem, fr: Frames, good: set<string>, st: State) {
    && |s.env| > 0 && |fr| > 0
    && Visible(c, s) <= st.syms.Keys && WellScoped(stmt, Visible(c, s), st.loops != [])
    && Good(st.syms, fr, c.globals, good) && Faithful(stmt, good) && Below(fr, st.nextTemp)
    && CondsValued(c.voids, stmt)
  }

  ghost predicate SoundList(c: Context, ss: seq<Stmt>, s: Mem, fr: Frames, good: set<string>, st: State) {
    && Visible(c, s) <= st.syms.Keys && WellScopedList(ss, Visible(c, s), st.loops != [])
    && Good(st.syms, fr, c.globals, good) && FaithfulList(ss, good) && Below(fr, st.nextTemp)
    && CondsValuedList(c.voids, ss)
  }

  /** After a statement that does not end its block the rest of the list is as sound. */
  lemma {:induction false} SoundAfter(
      c: Context, ss: seq<Stmt>, s: Mem, fr: Frames, good: set<string>, st: State, s1: Mem)
    requires ss != [] && Valid(st) && !Closed(st) && Names(st) && |s.env| > 0 && |fr| > 0 && !Ends(ss[0])
    requires SoundList(c, ss, s, fr, good, st) && Visible(c, s1) == ScopeAfter(ss[0], Visible(c, s))
    ensures var st1 := LowerStmt(c.voids, ss[0], st);
            SoundList(c, ss[1..], s1, FramesAfter(ss[0], st, fr), GoodAfter(ss[0], good), st1)
  {
    var st1 := LowerStmt(c.voids, ss[0], st);
    LowerStmtOk(c.voids, ss[0], Visible(c, s), st);
    LowerStmtNames(c.voids, ss[0], Visible(c, s), st);
    if ss[0].VarDecl? {
      LowerDeclOk(c.voids, ss[0].name, ss[0].init, st);
      DeclNext(c.voids, ss[0].name, ss[0].init, st);
      GoodDeclared(st.syms, fr, c.globals, good, ss[0].name, Temp(st.nextTemp));
      DeclareBelow(fr, ss[0].name, st.nextTemp);
      BelowMore(DeclareSlot(fr, ss[0].name, Temp(st.nextTemp)), st.nextTemp + 1, st1.nextTemp);
    } else {
      GoodKept(st, st1, Decls(ss[0]), fr, c.globals, good);
      BelowMore(fr, st.nextTemp, st1.nextTemp);
    }
  }

  /** One terminator. */
  lemma {:induction false} SimEnd(c: Context, m: Machine, fin: State, st: State, i: Instr, mem: Memory)
    requires Linked(c, m, fin) && Valid(st) && !Closed(st) && i.IsTerminator() && Grows(EmitEnd(st, i), fin)
    ensures exists p :: Run(m, Here(fin, st, mem), 1) == Perform(m, i, st.cur, p, mem)
  {
    StepHere(c, m, fin, st, i, mem);
  }

  lemma {:induction false} SimStmt(
      c: Context, m: Machine, fin: State, stmt: Stmt, s: Mem, fr: Frames, good: set<string>, st: State, mem: Memory,
      fuel: nat)
      returns (n: nat, mem': Memory)
    requires Ready(c, m, fin, s, fr, st, mem) && Sound(c, stmt, s, fr, good, st)
    requires Within(LowerStmt(c.voids, stmt, st), fin)
    ensures var st' := LowerStmt(c.voids, stmt, st);
            var o := Exec(c, stmt, s, fuel);
            && st'.cur < |st'.blocks|
            && Lands(c, m, fin, EndOf(fin, st', st.loops, FramesAfter(stmt, st, fr)), o, fuel, Here(fin, st, mem), n,
              mem')
            && (o.Normal? ==> !Closed(st'))
    decreases fuel, stmt, 4
  {
    assert LowerStmt(c.voids, stmt, st).cur < |LowerStmt(c.voids, stmt, st).blocks|
           && (!Ends(stmt) ==> !Closed(LowerStmt(c.voids, stmt, st))) by {
      LowerStmtOk(c.voids, stmt, Visible(c, s), st);
    }
    match stmt
    case Block(body) =>
      n, mem' := SimBlock(c, m, fin, body, s, fr, good, st, mem, fuel);
    case If(_, _, _) =>
      n, mem' := SimIf(c, m, fin, stmt, s, fr, good, st, mem, fuel);
    case While(cond, body) =>
      n, mem' := SimLoop(c, m, fin, cond, body, None, s, fr, good, st, mem, fuel);
    case For(_, _, _, _, _) =>
      n, mem' := SimFor(c, m, fin, stmt, s, fr, good, st, mem, fuel);
    case _ =>
      n, mem' := SimSimple(c, m, fin, stmt, s, fr, good, st, mem, fuel);
  }

  /** The statements without statements in them. */
  lemma {:induction false} SimSimple(
      c: Context, m: Machine, fin: State, stmt: Stmt, s: Mem, fr: Frames, good: set<string>, st: State, mem: Memory,
      fuel: nat)
      returns (n: nat, mem': Memory)
    requires !stmt.Block? && !stmt.If? && !stmt.While? && !stmt.For?
    requires Ready(c, m, fin, s, fr, st, mem) && Sound(c, stmt, s, fr, good, st)
    requires Within(LowerStmt(c.voids, stmt, st), fin)
    requires LowerStmt(c.voids, stmt, st).cur < |LowerStmt(c.voids, stmt, st).blocks|
    ensures Lands(c, m, fin, EndOf(fin, LowerStmt(c.voids, stmt, st), st.loops, FramesAfter(stmt, st, fr)),
                  Exec(c, stmt, s, fuel), fuel, Here(fin, st, mem), n, mem')
  {
    match stmt
    case ExprStmt(e) =>
      n, mem' := SimExpr(c, m, fin, e, s, fr, good, st, mem);
    case Return(e) =>
      n, mem' := SimReturn(c, m, fin, e, s, fr, good, st, mem, fuel);
    case Break =>
      n, mem' := 1, mem;
      SimEnd(c, m, fin, st, Br(st.loops[|st.loops| - 1].onBreak), mem);
    case Continue =>
      n, mem' := 1, mem;
      SimEnd(c, m, fin, st, Br(st.loops[|st.loops| - 1].onContinue), mem);
    case VarDecl(x, init) =>
      n, mem' := SimDecl(c, m, fin, x, init, s, fr, good, st, mem);
    case Assign(x, e) =>
      n, mem' := SimAssign(c, m, fin, x, e, s, fr, good, st, mem);
  }

  lemma {:induction false} SimBlock(
      c: Context, m: Machine, fin: State, body: seq<Stmt>, s: Mem, fr: Frames, good: set<string>, st: State,
      mem: Memory, fuel: nat)
      returns (n: nat, mem': Memory)
    requires Ready(c, m, fin, s, fr, st, mem) && SoundList(c, body, s, fr, good, st)
    requires Within(LowerList(c.voids, body, st), fin)
    ensures var st' := LowerList(c.voids, body, st);
            var o := ExecBlock(c, body, s, fuel);
            && st'.cur < |st'.blocks|
            && Lands(c, m, fin, EndOf(fin, st', st.loops, fr), o, fuel, Here(fin, st, mem), n, mem')
            && (o.Normal? ==> !Closed(st'))
    decreases fuel, body, 1
  {
    RelPush(c, s, fr, fin, mem);
    SoundPush(c, body, s, fr, good, st);
    assert (fr + [map[]])[..|fr|] == fr;
    n, mem' := SimList(c, m, fin, body, s.(env := Push(s.env)), fr + [map[]], good, st, mem, fuel);
  }

  lemma {:induction false} SoundPush(c: Context, ss: seq<Stmt>, s: Mem, fr: Frames, good: set<string>, st: State)
    requires SoundList(c, ss, s, fr, good, st) && Visible(c, s.(env := Push(s.env))) == Visible(c, s)
    ensures SoundList(c, ss, s.(env := Push(s.env)), fr + [map[]], good, st)
  {
    GoodPush(st.syms, fr, c.globals, good);
    BelowPush(fr, st.nextTemp);
  }

  lemma {:induction false} SimReturn(
      c: Context, m: Machine, fin: State, e: Option<Expr>, s: Mem, fr: Frames, good: set<string>, st: State,
      mem: Memory, fuel: nat)
      returns (n: nat, mem': Memory)
    requires Ready(c, m, fin, s, fr, st, mem) && |s.env| > 0 && Good(st.syms, fr, c.globals, good) && InitIn(e, good)
    requires Within(LowerStmt(c.voids, Return(e), st), fin)
    ensures var o := Exec(c, Return(e), s, fuel);
            && o.Returned?
            && Run(m, Here(fin, st, mem), n) == Done(o.result, o.s.globals, o.s.trace)
  {
    if e.None? {
      n, mem' := 1, mem;
      SimEnd(c, m, fin, st, Ret(None), mem);
    } else {
      var (st1, o) := LowerExpr(c.voids, e.value, st);
      LowerExprOk(c.voids, e.value, st);
      LowerExprNames(c.voids, e.value, st);
      assert Within(st1, fin) by {
        EmitOk(st1, Ret(o));
        EmitNames(st1, Ret(o));
        WithinBefore(st1, Emit(st1, Ret(o)), fin);
      }
      n, mem' := SimExpr(c, m, fin, e.value, s, fr, good, st, mem);
      SimEnd(c, m, fin, st1, Ret(o), mem');
      RunAdd(m, Here(fin, st, mem), n, 1);
      n := n + 1;
    }
  }

  // ----- lists -----

  /** A list in a scope of its own, which is left at its end. */
  lemma {:induction false} SimList(
      c: Context, m: Machine, fin: State, ss: seq<Stmt>, s: Mem, fr: Frames, good: set<string>, st: State, mem: Memory,
      fuel: nat)
      returns (n: nat, mem': Memory)
    requires Ready(c, m, fin, s, fr, st, mem) && |s.env| > 0 && |fr| > 0 && SoundList(c, ss, s, fr, good, st)
    requires Within(LowerList(c.voids, ss, st), fin)
    ensures var st' := LowerList(c.voids, ss, st);
            var o := PopOutcome(ExecList(c, ss, s, fuel));
            && st'.cur < |st'.blocks|
            && Lands(c, m, fin, EndOf(fin, st', st.loops, fr[..|fr| - 1]), o, fuel, Here(fin, st, mem), n, mem')
            && (o.Normal? ==> !Closed(st'))
    decreases fuel, ss, 0
  {
    if ss == [] {
      n, mem' := 0, mem;
      RelPop(c, s, fr, fin, mem);
    } else {
      var st1 := LowerStmt(c.voids, ss[0], st);
      LowerStmtOk(c.voids, ss[0], Visible(c, s), st);
      LowerStmtNames(c.voids, ss[0], Visible(c, s), st);
      if Closed(st1) {
        n, mem' := SimLast(c, m, fin, ss, s, fr, good, st, mem, fuel);
      } else {
        n, mem' := SimTail(c, m, fin, ss, s, fr, good, st, st1, mem, fuel);
      }
    }
  }

  /** A statement after which nothing is lowered. */
  lemma {:induction false} SimLast(
      c: Context, m: Machine, fin: State, ss: seq<Stmt>, s: Mem, fr: Frames, good: set<string>, st: State, mem: Memory,
      fuel: nat)
      returns (n: nat, mem': Memory)
    requires ss != [] && Ready(c, m, fin, s, fr, st, mem) && |s.env| > 0 && |fr| > 0
      && SoundList(c, ss, s, fr, good, st)
    requires Within(LowerList(c.voids, ss, st), fin) && Closed(LowerStmt(c.voids, ss[0], st))
    ensures var st' := LowerList(c.voids, ss, st);
            var o := PopOutcome(ExecList(c, ss, s, fuel));
            && st'.cur < |st'.blocks| && !o.Normal?
            && Lands(c, m, fin, EndOf(fin, st', st.loops, fr[..|fr| - 1]), o, fuel, Here(fin, st, mem), n, mem')
    decreases fuel, ss, 0, 0
  {
    var st' := LowerStmt(c.voids, ss[0], st);
    assert LowerList(c.voids, ss[1..], st') == st';
    n, mem' := SimStmt(c, m, fin, ss[0], s, fr, good, st, mem, fuel);
    var fr1 := FramesAfter(ss[0], st, fr);
    assert fr1[..|fr1| - 1] == fr[..|fr| - 1];
    LandsPop(c, m, fin, EndOf(fin, st', st.loops, fr1), EndOf(fin, st', st.loops, fr[..|fr| - 1]),
      Exec(c, ss[0], s, fuel),
             fuel, Here(fin, st, mem), n, mem');
  }

  lemma {:induction false} SimTail(
      c: Context, m: Machine, fin: State, ss: seq<Stmt>, s: Mem, fr: Frames, good: set<string>, st: State, st1: State,
      mem: Memory, fuel: nat)
      returns (n: nat, mem': Memory)
    requires ss != []
    requires Ready(c, m, fin, s, fr, st, mem) && |s.env| > 0 && |fr| > 0 && SoundList(c, ss, s, fr, good, st)
    requires Within(LowerList(c.voids, ss[1..], st1), fin)
    requires st1 == LowerStmt(c.voids, ss[0], st) && !Closed(st1) && !Ends(ss[0]) && Valid(st1) && Names(st1)
    requires st1.loops == st.loops && ScopeAfter(ss[0], Visible(c, s)) <= st1.syms.Keys
    ensures var st' := LowerList(c.voids, ss[1..], st1);
            var o := PopOutcome(ExecList(c, ss, s, fuel));
            && st'.cur < |st'.blocks|
            && Lands(c, m, fin, EndOf(fin, st', st.loops, fr[..|fr| - 1]), o, fuel, Here(fin, st, mem), n, mem')
            && (o.Normal? ==> !Closed(st'))
    decreases fuel, ss, 0, 0
  {
    var st' := LowerList(c.voids, ss[1..], st1);
    var o := Exec(c, ss[0], s, fuel);
    var fr1 := FramesAfter(ss[0], st, fr);
    assert fr1[..|fr1| - 1] == fr[..|fr| - 1];
    assert Within(st1, fin) && st'.cur < |st'.blocks| by {
      TailPieces(c, fin, ss[1..], ScopeAfter(ss[0], Visible(c, s)), st1);
    }
    n, mem' := SimStmt(c, m, fin, ss[0], s, fr, good, st, mem, fuel);
    if o.Normal? {
      VisibleAfter(c, ss[0], s, fuel);
      SoundAfter(c, ss, s, fr, good, st, o.s);
      n, mem' := SimRest(c, m, fin, ss[1..], o.s, fr1, GoodAfter(ss[0], good), st1, Here(fin, st, mem), n, mem', fuel);
    } else {
      LandsPop(c, m, fin, EndOf(fin, st1, st.loops, fr1), EndOf(fin, st', st.loops, fr[..|fr| - 1]), o,
               fuel, Here(fin, st, mem), n, mem');
    }
  }

  /** A list from where `n1` steps have led. */
  lemma {:induction false} SimRest(
      c: Context, m: Machine, fin: State, ss: seq<Stmt>, s: Mem, fr: Frames, good: set<string>, st: State,
      start: Config, n1: nat, mem: Memory, fuel: nat)
      returns (n: nat, mem': Memory)
    requires Ready(c, m, fin, s, fr, st, mem) && |s.env| > 0 && |fr| > 0 && SoundList(c, ss, s, fr, good, st)
    requires Within(LowerList(c.voids, ss, st), fin)
    requires Run(m, start, n1) == Here(fin, st, mem)
    ensures var st' := LowerList(c.voids, ss, st);
            var o := PopOutcome(ExecList(c, ss, s, fuel));
            && st'.cur < |st'.blocks|
            && Lands(c, m, fin, EndOf(fin, st', st.loops, fr[..|fr| - 1]), o, fuel, start, n, mem')
            && (o.Normal? ==> !Closed(st'))
    decreases fuel, ss, 1
  {
    n, mem' := SimList(c, m, fin, ss, s, fr, good, st, mem, fuel);
    var st' := LowerList(c.voids, ss, st);
    LandsAfter(c, m, fin, EndOf(fin, st', st.loops, fr[..|fr| - 1]), PopOutcome(ExecList(c, ss, s, fuel)), fuel, start,
      n1,
               Here(fin, st, mem), n, mem');
    n := n1 + n;
  }

  lemma {:induction false} TailPieces(c: Context, fin: State, ss: seq<Stmt>, scope: set<string>, st: State)
    requires Valid(st) && !Closed(st) && Names(st) && scope <= st.syms.Keys
    requires WellScopedList(ss, scope, st.loops != [])
    requires Within(LowerList(c.voids, ss, st), fin)
    ensures var st' := LowerList(c.voids, ss, st);
            Within(st, fin) && st'.cur < |st'.blocks|
  {
    var st' := LowerList(c.voids, ss, st);
    LowerListOk(c.voids, ss, scope, st);
    LowerListNames(c.voids, ss, scope, st);
    WithinBefore(st, st', fin);
  }

  // ----- arms -----

  /** A list lowered into block `arm`, ending with a jump to `target`. */
  lemma {:induction false} SimArm(
      c: Context, m: Machine, fin: State, ss: seq<Stmt>, arm: nat, target: nat, s: Mem, fr: Frames, good: set<string>,
      st: State, mem: Memory, fuel: nat)
      returns (n: nat, mem': Memory)
    requires Linked(c, m, fin) && Valid(st) && Names(st) && Rel(c, s, fr, fin, mem)
    requires InRange(arm, |st.blocks|) && st.blocks[arm] == [] && InRange(target, |st.blocks|)
    requires SoundList(c, ss, s, fr, good, st)
    requires Within(LowerArm(c.voids, ss, arm, target, st), fin)
    ensures Lands(c, m, fin, Exits(target, 0, st.loops, fr), ExecBlock(c, ss, s, fuel), fuel, At(arm, 0, mem), n, mem')
    decreases fuel, ss, 2
  {
    var st0 := st.(cur := arm);
    var st1 := LowerList(c.voids, ss, st0);
    ArmPieces(c, fin, ss, target, Visible(c, s), st0);
    assert At(arm, 0, mem) == Here(fin, st0, mem);
    n, mem' := SimBlock(c, m, fin, ss, s, fr, good, st0, mem, fuel);
    n := ArmJump(c, m, fin, st1, target, st.loops, fr, ExecBlock(c, ss, s, fuel), fuel, At(arm, 0, mem), n, mem');
  }

  /** The jump at the end of an arm, where its end is reached. */
  lemma {:induction false} ArmJump(
      c: Context, m: Machine, fin: State, st: State, target: nat, loops: seq<Targets>, fr: Frames, o: Outcome,
      fuel: nat, start: Config, n1: nat, mem: Memory)
      returns (n: nat)
    requires Linked(c, m, fin) && Valid(st) && Grows(EmitEnd(st, Br(target)), fin)
    requires Lands(c, m, fin, EndOf(fin, st, loops, fr), o, fuel, start, n1, mem) && (o.Normal? ==> !Closed(st))
    ensures Lands(c, m, fin, Exits(target, 0, loops, fr), o, fuel, start, n, mem)
  {
    n := n1;
    if o.Normal? {
      SimEnd(c, m, fin, st, Br(target), mem);
      RunAdd(m, start, n1, 1);
      n := n1 + 1;
    }
  }

  lemma {:induction false} ArmPieces(c: Context, fin: State, ss: seq<Stmt>, target: nat, scope: set<string>, st: State)
    requires Valid(st) && !Closed(st) && Names(st) && scope <= st.syms.Keys && InRange(target, |st.blocks|)
    requires WellScopedList(ss, scope, st.loops != [])
    requires Within(EmitEnd(LowerList(c.voids, ss, st), Br(target)), fin)
    ensures var st1 := LowerList(c.voids, ss, st);
            Valid(st1) && Within(st1, fin) && |st.blocks| <= |st1.blocks| && st1.loops == st.loops
  {
    var st1 := LowerList(c.voids, ss, st);
    LowerListOk(c.voids, ss, scope, st);
    LowerListNames(c.voids, ss, scope, st);
    EmitEndOk(st1, Br(target));
    EmitNames(st1, Br(target));
    WithinBefore(st1, EmitEnd(st1, Br(target)), fin);
  }

  // ----- conditions -----

  /** Running a condition ends in the block its value selects. */
  lemma {:induction false} SimTest(
      c: Context, m: Machine, fin: State, cond: Expr, t: nat, f: nat, s: Mem, fr: Frames, good: set<string>, st: State,
      mem: Memory)
      returns (n: nat, mem': Memory)
    requires Ready(c, m, fin, s, fr, st, mem) && Good(st.syms, fr, c.globals, good) && ExprIn(cond, good)
    requires Valued(c.voids, cond) && ExprIn(cond, st.syms.Keys)
    requires InRange(t, |st.blocks|) && InRange(f, |st.blocks|)
    requires Within(Test(c.voids, cond, t, f, st), fin)
    ensures var (v, s1) := Eval(c, cond, s);
            && v.Some?
            && 0 < n
            && Arrives(c, m, fin, fr, Here(fin, st, mem), n, if v.value != 0 then t else f, 0, mem', s1)
  {
    var (st1, o) := LowerExpr(c.voids, cond, st);
    LowerExprOk(c.voids, cond, st);
    LowerExprNames(c.voids, cond, st);
    var i := Cbr(o.value, t, f);
    assert Within(st1, fin) by {
      EmitOk(st1, i);
      EmitNames(st1, i);
      WithinBefore(st1, Emit(st1, i), fin);
    }
    n, mem' := SimExpr(c, m, fin, cond, s, fr, good, st, mem);
    SimEnd(c, m, fin, st1, i, mem');
    RunAdd(m, Here(fin, st, mem), n, 1);
    n := n + 1;
  }

  /** The same for the condition of an If, whose blocks are made in between. */
  lemma {:induction false} SimIfHead(
      c: Context, m: Machine, fin: State, stmt: Stmt, s: Mem, fr: Frames, good: set<string>, st: State, mem: Memory)
      returns (n: nat, mem': Memory)
    requires stmt.If?
    requires Ready(c, m, fin, s, fr, st, mem) && Good(st.syms, fr, c.globals, good) && ExprIn(stmt.cond, good)
    requires Valued(c.voids, stmt.cond) && ExprIn(stmt.cond, st.syms.Keys)
    requires Within(IfHead(c.voids, stmt, st), fin)
    ensures var (v, s1) := Eval(c, stmt.cond, s);
            && v.Some?
            && Arrives(c, m, fin, fr, Here(fin, st, mem), n, |st.blocks| + if v.value != 0 then 0 else 1, 0, mem', s1)
  {
    var (st1, o) := LowerExpr(c.voids, stmt.cond, st);
    LowerExprOk(c.voids, stmt.cond, st);
    LowerExprNames(c.voids, stmt.cond, st);
    var t := |st1.blocks|;
    var k := if stmt.els.Else? then 3 else 2;
    var st2 := AddBlocks(st1, k);
    AddBlocksOk(st1, k);
    AddBlocksNames(st1, k);
    var i := Cbr(o.value, t, t + 1);
    assert Within(st2, fin) by {
      EmitOk(st2, i);
      EmitNames(st2, i);
      WithinBefore(st2, Emit(st2, i), fin);
    }
    WithinBefore(st1, st2, fin);
    n, mem' := SimExpr(c, m, fin, stmt.cond, s, fr, good, st, mem);
    assert Here(fin, st2, mem') == Here(fin, st1, mem');
    SimEnd(c, m, fin, st2, i, mem');
    RunAdd(m, Here(fin, st, mem), n, 1);
    n := n + 1;
  }

  // ----- if -----

  lemma {:induction false} SimIf(
      c: Context, m: Machine, fin: State, stmt: Stmt, s: Mem, fr: Frames, good: set<string>, st: State, mem: Memory,
      fuel: nat)
      returns (n: nat, mem': Memory)
    requires stmt.If?
    requires Ready(c, m, fin, s, fr, st, mem) && Sound(c, stmt, s, fr, good, st)
    requires Within(LowerStmt(c.voids, stmt, st), fin)
    ensures var st' := LowerStmt(c.voids, stmt, st);
            && st'.cur < |st'.blocks|
            && Lands(c, m, fin, EndOf(fin, st', st.loops, fr), Exec(c, stmt, s, fuel), fuel, Here(fin, st, mem), n,
              mem')
            && !Closed(st')
    decreases fuel, stmt, 3
  {
    var h := IfHead(c.voids, stmt, st);
    var r := LowerArms(c.voids, stmt, |st.blocks|, h);
    assert IfCode(fin, stmt, st, h, r) && r == LowerStmt(c.voids, stmt, st) by {
      IfPieces(c, fin, stmt, Visible(c, s), st);
    }
    n, mem' := SimHeadAndArms(c, m, fin, stmt, s, fr, good, st, h, r, mem, fuel);
  }

  /** The condition and the arm that it selects. */
  lemma {:induction false} ArmsSound(
      c: Context, stmt: Stmt, s: Mem, s1: Mem, fr: Frames, good: set<string>, st: State, h: State)
    requires stmt.If? && Sound(c, stmt, s, fr, good, st) && Visible(c, s1) == Visible(c, s)
    requires h.loops == st.loops && h.syms == st.syms && st.nextTemp <= h.nextTemp
    ensures SoundList(c, stmt.thn, s1, fr, good, h)
    ensures stmt.els.Else? ==>
            && WellScopedList(stmt.els.body, Visible(c, s1), h.loops != [])
            && CondsValuedList(c.voids, stmt.els.body) && FaithfulList(stmt.els.body, good - DeclsList(stmt.thn))
  {
    BelowMore(fr, st.nextTemp, h.nextTemp);
  }

  lemma {:induction false} SimHeadAndArms(
      c: Context, m: Machine, fin: State, stmt: Stmt, s: Mem, fr: Frames, good: set<string>, st: State, h: State,
      r: State, mem: Memory, fuel: nat)
      returns (n: nat, mem': Memory)
    requires stmt.If?
    requires Ready(c, m, fin, s, fr, st, mem) && Sound(c, stmt, s, fr, good, st)
    requires h == IfHead(c.voids, stmt, st) && r == LowerArms(c.voids, stmt, |st.blocks|, h)
      && IfCode(fin, stmt, st, h, r)
    ensures Lands(c, m, fin, Exits(r.cur, 0, st.loops, fr), Exec(c, stmt, s, fuel), fuel, Here(fin, st, mem), n, mem')
    decreases fuel, stmt, 2, 1
  {
    WiderScope(stmt.cond, Visible(c, s), st.syms.Keys);
    var n1, mem1 := SimIfHead(c, m, fin, stmt, s, fr, good, st, mem);
    var (v, s1) := Eval(c, stmt.cond, s);
    ArmsSound(c, stmt, s, s1, fr, good, st, h);
    var n2;
    n2, mem' := SimArms(c, m, fin, stmt, v.value, |st.blocks|, s1, fr, good, h, mem1, fuel);
    n := n1 + n2;
    LandsAfter(c, m, fin, Exits(r.cur, 0, st.loops, fr), Exec(c, stmt, s, fuel), fuel, Here(fin, st, mem), n1,
               At(|st.blocks| + if v.value != 0 then 0 else 1, 0, mem1), n2, mem');
  }

  /** The pieces of a lowered If: its head `h` and the state `r` after its arms. */
  ghost predicate IfCode(fin: State, stmt: Stmt, st: State, h: State, r: State)
    requires stmt.If?
  {
    && Within(h, fin) && Within(r, fin)
    && 0 < r.cur < |r.blocks| && r.blocks[r.cur] == []
    && Valid(h) && Names(h) && h.loops == st.loops && h.syms == st.syms && st.nextTemp <= h.nextTemp
    && 0 < |st.blocks| && |h.blocks| == |st.blocks| + (if stmt.els.Else? then 3 else 2)
    && forall b | |st.blocks| <= b < |h.blocks| :: h.blocks[b] == []
  }

  lemma {:induction false} IfPieces(c: Context, fin: State, stmt: Stmt, scope: set<string>, st: State)
    requires stmt.If? && Valid(st) && !Closed(st) && Names(st)
    requires scope <= st.syms.Keys && WellScoped(stmt, scope, st.loops != [])
    requires Within(LowerStmt(c.voids, stmt, st), fin)
    ensures var h := IfHead(c.voids, stmt, st);
            var r := LowerArms(c.voids, stmt, |st.blocks|, h);
            r == LowerStmt(c.voids, stmt, st) && IfCode(fin, stmt, st, h, r)
  {
    var t := |st.blocks|;
    var h := IfHead(c.voids, stmt, st);
    var r := LowerArms(c.voids, stmt, t, h);
    IfParts(c.voids, stmt, st);
    WiderScope(stmt.cond, scope, st.syms.Keys);
    IfHeadOk(c.voids, stmt, st);
    IfHeadNames(c.voids, stmt, st);
    LowerExprOk(c.voids, stmt.cond, st);
    IfArmsOk(c.voids, stmt, scope, st, h);
    LowerArmsOk(c.voids, stmt, t, scope, h);
    LowerArmsNames(c.voids, stmt, t, scope, h);
    WithinBefore(h, r, fin);
  }

  /** From the start of the arm that the condition selects. */
  lemma {:induction false} SimArms(
      c: Context, m: Machine, fin: State, stmt: Stmt, v: int, t: nat, s: Mem, fr: Frames, good: set<string>, h: State,
      mem: Memory, fuel: nat)
      returns (n: nat, mem': Memory)
    requires stmt.If? && 0 < t
    requires Linked(c, m, fin) && Valid(h) && Names(h) && Rel(c, s, fr, fin, mem)
    requires |h.blocks| == t + if stmt.els.Else? then 3 else 2
    requires forall b | t <= b < |h.blocks| :: h.blocks[b] == []
    requires SoundList(c, stmt.thn, s, fr, good, h)
    requires stmt.els.Else? ==>
             && WellScopedList(stmt.els.body, Visible(c, s), h.loops != []) && CondsValuedList(c.voids, stmt.els.body)
             && FaithfulList(stmt.els.body, good - DeclsList(stmt.thn))
    requires Within(LowerArms(c.voids, stmt, t, h), fin)
    ensures var r := LowerArms(c.voids, stmt, t, h);
            Lands(c, m, fin, Exits(r.cur, 0, h.loops, fr),
                  if v != 0 then ExecBlock(c, stmt.thn, s, fuel)
                  else if stmt.els.Else? then ExecBlock(c, stmt.els.body, s, fuel)
                  else Normal(s),
                  fuel, At(t + if v != 0 then 0 else 1, 0, mem), n, mem')
    decreases fuel, stmt, 2, 0
  {
    var scope := Visible(c, s);
    var r := LowerArms(c.voids, stmt, t, h);
    var merge := r.cur;
    var a := LowerArm(c.voids, stmt.thn, t, merge, h);
    if stmt.els.Else? {
      var body := stmt.els.body;
      LowerArmOk(c.voids, stmt.thn, t, merge, scope, h);
      LowerArmNames(c.voids, stmt.thn, t, merge, scope, h);
      Kept(h.(cur := t), a, t + 1);
      if v != 0 {
        LowerArmOk(c.voids, body, t + 1, merge, scope, a);
        LowerArmNames(c.voids, body, t + 1, merge, scope, a);
        WithinBefore(a, r, fin);
        n, mem' := SimArm(c, m, fin, stmt.thn, t, merge, s, fr, good, h, mem, fuel);
      } else {
        GoodKept(h, a, DeclsList(stmt.thn), fr, c.globals, good);
        BelowMore(fr, h.nextTemp, a.nextTemp);
        n, mem' := SimArm(c, m, fin, body, t + 1, merge, s, fr, good - DeclsList(stmt.thn), a, mem, fuel);
      }
    } else if v != 0 {
      n, mem' := SimArm(c, m, fin, stmt.thn, t, merge, s, fr, good, h, mem, fuel);
    } else {
      n, mem' := 0, mem;
    }
  }

  // ----- loops -----

  // The pieces of a lowered loop and what is known of them: entry `e`, head `h`, and body `arm`.

  ghost predicate HeadCode(
      c: Context, fin: State, cond: Expr, fr: Frames, good: set<string>, e: State, h: State, merge: nat)
  {
    && Valid(e) && !Closed(e) && Names(e) && InRange(e.cur, |e.blocks|) && e.blocks[e.cur] == []
    && InRange(merge, |e.blocks|) && InRange(e.cur + 1, |e.blocks|)
    && h == Test(c.voids, cond, e.cur + 1, merge, e) && Within(h, fin)
    && Valued(c.voids, cond) && ExprIn(cond, e.syms.Keys)
    && Good(e.syms, fr, c.globals, good) && ExprIn(cond, good)
  }

  ghost predicate BodyCode(
      c: Context, fin: State, body: seq<Stmt>, scope: set<string>, fr: Frames, good: set<string>, head: nat, h: State,
      arm: State, next: nat, merge: nat)
  {
    var inner := Inside(h, merge, next);
    && Valid(inner) && Names(inner)
    && InRange(head + 1, |h.blocks|) && h.blocks[head + 1] == [] && InRange(next, |h.blocks|)
    && arm == LowerArm(c.voids, body, head + 1, next, inner) && Within(arm, fin)
    && scope <= h.syms.Keys && WellScopedList(body, scope, true) && CondsValuedList(c.voids, body)
    && Good(h.syms, fr, c.globals, good) && FaithfulList(body, good) && Below(fr, h.nextTemp)
  }

  ghost predicate StepCode(
      c: Context, fin: State, step: Increment, fr: Frames, good: set<string>, head: nat, st: State)
  {
    && Valid(st) && !Closed(st) && Names(st) && InRange(st.cur, |st.blocks|) && st.blocks[st.cur] == []
    && InRange(head, |st.blocks|)
    && Good(st.syms, fr, c.globals, good) && StepIn(step, good)
    && Within(EmitEnd(LowerAssign(c.voids, step.target, step.value, st), Br(head)), fin)
  }

  ghost predicate LoopCode(
      c: Context, fin: State, cond: Expr, body: seq<Stmt>, step: Option<Increment>, scope: set<string>, fr: Frames,
      good: set<string>, e: State, h: State, arm: State, next: nat, merge: nat)
  {
    forall z {:trigger Unseal(z)} :: Unseal(z) ==>
      && HeadCode(c, fin, cond, fr, good, e, h, merge)
      && BodyCode(c, fin, body, scope, fr, good, e.cur, h, arm, next, merge)
      && if step.None? then next == e.cur
         else StepCode(c, fin, step.value, fr, good - DeclsList(body), e.cur, arm.(loops := h.loops, cur := next))
  }

  /** From the start of the condition to the body or past the loop. */
  lemma {:induction false} SimHead(
      c: Context, m: Machine, fin: State, cond: Expr, body: seq<Stmt>, step: Option<Increment>, s: Mem, fr: Frames,
      good: set<string>, e: State, h: State, arm: State, next: nat, merge: nat, mem: Memory)
      returns (n: nat, mem': Memory)
    requires Linked(c, m, fin) && LoopCode(c, fin, cond, body, step, Visible(c, s), fr, good, e, h, arm, next, merge)
    requires Rel(c, s, fr, fin, mem)
    ensures var (v, s1) := Eval(c, cond, s);
            && v.Some?
            && 0 < n
            && Visible(c, s1) == Visible(c, s)
            && Arrives(c, m, fin, fr, At(e.cur, 0, mem), n, if v.value != 0 then e.cur + 1 else merge, 0, mem', s1)
  {
    assert Unseal(0);
    assert At(e.cur, 0, mem) == Here(fin, e, mem);
    n, mem' := SimTest(c, m, fin, cond, e.cur + 1, merge, s, fr, good, e, mem);
  }

  /** From the start of the step block back to the condition. */
  lemma {:induction false} SimStep(
      c: Context, m: Machine, fin: State, step: Increment, head: nat, s: Mem, fr: Frames, good: set<string>, st: State,
      mem: Memory)
      returns (n: nat, mem': Memory)
    requires Linked(c, m, fin) && StepCode(c, fin, step, fr, good, head, st) && Rel(c, s, fr, fin, mem)
    ensures Arrives(c, m, fin, fr, At(st.cur, 0, mem), n, head, 0, mem', AfterStep(c, Some(step), s))
  {
    var st1 := LowerAssign(c.voids, step.target, step.value, st);
    LowerAssignOk(c.voids, step.target, step.value, st);
    LowerAssignNames(c.voids, step.target, step.value, st);
    assert Within(st1, fin) by {
      EmitEndOk(st1, Br(head));
      EmitNames(st1, Br(head));
      WithinBefore(st1, EmitEnd(st1, Br(head)), fin);
    }
    assert Here(fin, st, mem) == At(st.cur, 0, mem);
    n, mem' := SimAssign(c, m, fin, step.target, step.value, s, fr, good, st, mem);
    SimEnd(c, m, fin, st1, Br(head), mem');
    RunAdd(m, At(st.cur, 0, mem), n, 1);
    n := n + 1;
  }

  /** From the start of the body to the next turn, or out of the loop. */
  lemma {:induction false} SimLoopBody(
      c: Context, m: Machine, fin: State, cond: Expr, body: seq<Stmt>, step: Option<Increment>, s: Mem, fr: Frames,
      good: set<string>, e: State, h: State, arm: State, next: nat, merge: nat, mem: Memory, fuel: nat)
      returns (n: nat, mem': Memory)
    requires Linked(c, m, fin) && LoopCode(c, fin, cond, body, step, Visible(c, s), fr, good, e, h, arm, next, merge)
    requires Rel(c, s, fr, fin, mem)
    ensures var o := ExecBlock(c, body, s, fuel);
            && Lands(c, m, fin, Exits(next, 0, [Targets(merge, next)], fr), o, fuel, At(e.cur + 1, 0, mem), n, mem')
            && (o.Normal? || o.Continued? ==> Visible(c, o.s) == Visible(c, s))
    decreases fuel, body, 3
  {
    assert Unseal(0);
    n, mem' := SimArm(c, m, fin, body, e.cur + 1, next, s, fr, good, Inside(h, merge, next), mem, fuel);
    VisibleAfterBlock(c, body, s, fuel);
  }

  /** From the end of a turn of the body back to the condition. */
  lemma {:induction false} SimNext(
      c: Context, m: Machine, fin: State, cond: Expr, body: seq<Stmt>, step: Option<Increment>, s: Mem, fr: Frames,
      good: set<string>, e: State, h: State, arm: State, next: nat, merge: nat, mem: Memory)
      returns (n: nat, mem': Memory)
    requires Linked(c, m, fin) && LoopCode(c, fin, cond, body, step, Visible(c, s), fr, good, e, h, arm, next, merge)
    requires Rel(c, s, fr, fin, mem)
    ensures Arrives(c, m, fin, fr, At(next, 0, mem), n, e.cur, 0, mem', AfterStep(c, step, s))
    ensures Visible(c, AfterStep(c, step, s)) == Visible(c, s)
  {
    assert Unseal(0);
    if step.None? {
      n, mem' := 0, mem;
    } else {
      AssignScopes(c, step.value.target, step.value.value, s);
      SameKeys(s.env, AfterStep(c, step, s).env);
      n, mem' := SimStep(c, m, fin, step.value, e.cur, s, fr, good - DeclsList(body),
        arm.(loops := h.loops, cur := next), mem);
    }
  }

  /** All the turns of a loop, from its condition on. */
  lemma {:induction false} SimTurns(
      c: Context, m: Machine, fin: State, cond: Expr, body: seq<Stmt>, step: Option<Increment>, s: Mem, fr: Frames,
      good: set<string>, e: State, h: State, arm: State, next: nat, merge: nat, mem: Memory, fuel: nat)
      returns (n: nat, mem': Memory)
    requires Linked(c, m, fin) && LoopCode(c, fin, cond, body, step, Visible(c, s), fr, good, e, h, arm, next, merge)
    requires Rel(c, s, fr, fin, mem)
    ensures Lands(c, m, fin, Exits(merge, 0, [], fr), ExecLoop(c, cond, body, step, s, fuel), fuel, At(e.cur, 0, mem),
      n, mem')
    decreases fuel, body, 4, 0
  {
    var start := At(e.cur, 0, mem);
    if fuel == 0 {
      n, mem' := 0, mem;
    } else {
      var n1, mem1 := SimHead(c, m, fin, cond, body, step, s, fr, good, e, h, arm, next, merge, mem);
      var (v, s1) := Eval(c, cond, s);
      if v.value == 0 {
        n, mem' := n1, mem1;
      } else {
        var n2;
        n2, mem' := SimTurn(c, m, fin, cond, body, step, s1, fr, good, e, h, arm, next, merge, mem1, fuel);
        n := n1 + n2;
        LandsAfter(c, m, fin, Exits(merge, 0, [], fr), ExecLoop(c, cond, body, step, s, fuel), fuel - 1, start, n1,
                   At(e.cur + 1, 0, mem1), n2, mem');
      }
    }
  }

  function AfterBody(
      c: Context, cond: Expr, body: seq<Stmt>, step: Option<Increment>, s: Mem, fuel: nat): Outcome
    requires 0 < fuel
  {
    match ExecBlock(c, body, s, fuel - 1)
    case Normal(s2) => ExecLoop(c, cond, body, step, AfterStep(c, step, s2), fuel - 1)
    case Continued(s2) => ExecLoop(c, cond, body, step, AfterStep(c, step, s2), fuel - 1)
    case Broke(s2) => Normal(s2)
    case o => o
  }

  /** One turn from the start of the body, and the turns after it. */
  lemma {:induction false} SimTurn(
      c: Context, m: Machine, fin: State, cond: Expr, body: seq<Stmt>, step: Option<Increment>, s: Mem, fr: Frames,
      good: set<string>, e: State, h: State, arm: State, next: nat, merge: nat, mem: Memory, fuel: nat)
      returns (n: nat, mem': Memory)
    requires 0 < fuel
    requires Linked(c, m, fin) && LoopCode(c, fin, cond, body, step, Visible(c, s), fr, good, e, h, arm, next, merge)
    requires Rel(c, s, fr, fin, mem)
    ensures Lands(c, m, fin, Exits(merge, 0, [], fr), AfterBody(c, cond, body, step, s, fuel), fuel - 1,
                  At(e.cur + 1, 0, mem), n, mem')
    decreases fuel, body, 1
  {
    var o := ExecBlock(c, body, s, fuel - 1);
    n, mem' := SimLoopBody(c, m, fin, cond, body, step, s, fr, good, e, h, arm, next, merge, mem, fuel - 1);
    if o.Normal? || o.Continued? {
      n, mem' := SimAgain(c, m, fin, cond, body, step, o.s, fr, good, e, h, arm, next, merge, At(e.cur + 1, 0, mem), n,
        mem',
                          fuel - 1);
    }
  }

  /** The step after `n1` steps have run the body, and the turns after it. */
  lemma {:induction false} SimAgain(
      c: Context, m: Machine, fin: State, cond: Expr, body: seq<Stmt>, step: Option<Increment>, s: Mem, fr: Frames,
      good: set<string>, e: State, h: State, arm: State, next: nat, merge: nat, start: Config, n1: nat, mem: Memory,
      fuel: nat)
      returns (n: nat, mem': Memory)
    requires Linked(c, m, fin) && LoopCode(c, fin, cond, body, step, Visible(c, s), fr, good, e, h, arm, next, merge)
    requires Arrives(c, m, fin, fr, start, n1, next, 0, mem, s)
    ensures Lands(c, m, fin, Exits(merge, 0, [], fr), ExecLoop(c, cond, body, step, AfterStep(c, step, s), fuel), fuel,
                  start, n, mem')
    decreases fuel, body, 5
  {
    var s1 := AfterStep(c, step, s);
    var n2, mem2 := SimNext(c, m, fin, cond, body, step, s, fr, good, e, h, arm, next, merge, mem);
    RunAdd(m, start, n1, n2);
    var n3;
    n3, mem' := SimTurns(c, m, fin, cond, body, step, s1, fr, good, e, h, arm, next, merge, mem2, fuel);
    n := n1 + n2 + n3;
    LandsAfter(c, m, fin, Exits(merge, 0, [], fr), ExecLoop(c, cond, body, step, s1, fuel), fuel, start, n1 + n2,
               At(e.cur, 0, mem2), n3, mem');
  }

  // ----- the pieces of a lowered loop -----

  lemma {:induction false} HeadPiece(
      c: Context, fin: State, cond: Expr, k: nat, fr: Frames, good: set<string>, st: State)
    requires Valid(st) && !Closed(st) && Names(st) && 2 < k
    requires ExprIn(cond, st.syms.Keys) && Valued(c.voids, cond)
    requires Good(st.syms, fr, c.globals, good) && ExprIn(cond, good)
    requires Within(LoopHead(c.voids, cond, k, st), fin)
    ensures HeadCode(c, fin, cond, fr, good, LoopEntry(k, st), LoopHead(c.voids, cond, k, st), |st.blocks| + k - 1)
    ensures Within(LoopEntry(k, st), fin)
  {
    var e := LoopEntry(k, st);
    var h := LoopHead(c.voids, cond, k, st);
    LoopEntryOk(k, st);
    LoopEntryNames(k, st);
    TestOk(c.voids, cond, |st.blocks| + 1, |st.blocks| + k - 1, e);
    TestNames(c.voids, cond, |st.blocks| + 1, |st.blocks| + k - 1, e);
    WithinBefore(e, h, fin);
  }

  lemma {:induction false} BodyPiece(
      c: Context, fin: State, body: seq<Stmt>, scope: set<string>, fr: Frames, good: set<string>, head: nat, n: nat,
      next: nat, h: State)
    requires Valid(h) && Names(h) && scope <= h.syms.Keys
    requires 0 < head && 2 < n && |h.blocks| == head + n && h.blocks[head + 1] == [] && InRange(next, |h.blocks|)
    requires WellScopedList(body, scope, true) && CondsValuedList(c.voids, body)
    requires Good(h.syms, fr, c.globals, good) && FaithfulList(body, good) && Below(fr, h.nextTemp)
    requires Within(LowerBody(c.voids, body, head, n, next, h), fin)
    ensures var arm := LowerArm(c.voids, body, head + 1, next, Inside(h, head + n - 1, next));
            && BodyCode(c, fin, body, scope, fr, good, head, h, arm, next, head + n - 1)
            && Within(h, fin)
  {
    var inner := Inside(h, head + n - 1, next);
    var arm := LowerArm(c.voids, body, head + 1, next, inner);
    InsideValid(h, head + n - 1, next);
    LowerArmOk(c.voids, body, head + 1, next, scope, inner);
    LowerArmNames(c.voids, body, head + 1, next, scope, inner);
    WithinBefore(h, arm, fin);
  }

  lemma {:induction false} StepPiece(
      c: Context, fin: State, step: Increment, fr: Frames, good: set<string>, head: nat, next: nat, out: State,
      st: State)
    requires st == out.(cur := next) && Valid(st) && Names(out)
    requires Good(out.syms, fr, c.globals, good) && StepIn(step, good)
    requires InRange(head, |out.blocks|) && InRange(next, |out.blocks|) && out.blocks[next] == []
    requires Within(LowerStep(c.voids, Some(step), head, next, out), fin)
    ensures StepCode(c, fin, step, fr, good, head, st)
    ensures Within(out, fin)
  {
    LowerStepOk(c.voids, Some(step), head, next, out);
    LowerStepNames(c.voids, Some(step), head, next, out);
    WithinBefore(out, LowerStep(c.voids, Some(step), head, next, out), fin);
  }

  lemma {:induction false} LoopWhole(
      c: Context, fin: State, cond: Expr, body: seq<Stmt>, step: Option<Increment>, scope: set<string>, fr: Frames,
      good: set<string>, e: State, h: State, arm: State, next: nat, merge: nat)
    requires HeadCode(c, fin, cond, fr, good, e, h, merge)
    requires BodyCode(c, fin, body, scope, fr, good, e.cur, h, arm, next, merge)
    requires if step.None? then next == e.cur
             else StepCode(c, fin, step.value, fr, good - DeclsList(body), e.cur, arm.(loops := h.loops, cur := next))
    ensures LoopCode(c, fin, cond, body, step, scope, fr, good, e, h, arm, next, merge)
  {
  }

  lemma {:induction false} StepWithin(
      c: Context, fin: State, cond: Expr, body: seq<Stmt>, step: Increment, st: State, h: State)
    requires h == LoopHead(c.voids, cond, 4, st) && Within(LowerLoop(c.voids, cond, body, Some(step), st), fin)
    ensures var out := LowerBody(c.voids, body, |st.blocks|, 4, |st.blocks| + 2, h);
            Within(LowerStep(c.voids, Some(step), |st.blocks|, |st.blocks| + 2, out), fin)
  {
    LoopParts(c.voids, cond, body, Some(step), st, 4, |st.blocks| + 2);
  }

  lemma {:induction false} OutPiece(
      c: Context, fin: State, body: seq<Stmt>, step: Increment, scope: set<string>, fr: Frames, good: set<string>,
      st: State, h: State, arm: State, out: State)
    requires Valid(st) && Advance(st, h) && Names(h) && out == arm.(loops := h.loops)
    requires |h.blocks| == |st.blocks| + 4 && forall b | |st.blocks| < b < |h.blocks| :: h.blocks[b] == []
    requires arm ==
      LowerArm(c.voids, body, |st.blocks| + 1, |st.blocks| + 2, Inside(h, |st.blocks| + 3, |st.blocks| + 2))
    requires scope <= h.syms.Keys && WellScopedList(body, scope, true)
    requires Good(h.syms, fr, c.globals, good) && StepIn(step, good - DeclsList(body))
    requires Within(LowerStep(c.voids, Some(step), |st.blocks|, |st.blocks| + 2, out), fin)
    ensures StepCode(c, fin, step, fr, good - DeclsList(body), |st.blocks|, out.(cur := |st.blocks| + 2))
    ensures Within(out, fin)
  {
    OutFacts(c, body, scope, fr, good, st, h, arm, 4, |st.blocks| + 2);
    StepPiece(c, fin, step, fr, good - DeclsList(body), |st.blocks|, |st.blocks| + 2, out,
      out.(cur := |st.blocks| + 2));
  }

  lemma {:induction false} LoopStepPiece(
      c: Context, fin: State, cond: Expr, body: seq<Stmt>, step: Increment, scope: set<string>, fr: Frames,
      good: set<string>, st: State, h: State, arm: State)
    requires Valid(st) && h == LoopHead(c.voids, cond, 4, st) && Advance(st, h) && Names(h)
    requires |h.blocks| == |st.blocks| + 4 && forall b | |st.blocks| < b < |h.blocks| :: h.blocks[b] == []
    requires arm ==
      LowerArm(c.voids, body, |st.blocks| + 1, |st.blocks| + 2, Inside(h, |st.blocks| + 3, |st.blocks| + 2))
    requires scope <= h.syms.Keys && WellScopedList(body, scope, true)
    requires Good(h.syms, fr, c.globals, good) && StepIn(step, good - DeclsList(body))
    requires Within(LowerLoop(c.voids, cond, body, Some(step), st), fin)
    ensures StepCode(c, fin, step, fr, good - DeclsList(body), |st.blocks|,
      arm.(loops := h.loops, cur := |st.blocks| + 2))
    ensures Within(LowerBody(c.voids, body, |st.blocks|, 4, |st.blocks| + 2, h), fin)
  {
    var head := |st.blocks|;
    var out := arm.(loops := h.loops);
    BodyState(c.voids, body, head, 4, head + 2, head + 3, h);
    assert Within(LowerStep(c.voids, Some(step), head, head + 2, out), fin) by {
      StepWithin(c, fin, cond, body, step, st, h);
    }
    OutPiece(c, fin, body, step, scope, fr, good, st, h, arm, out);
  }

  lemma {:induction false} LoopPieces(
      c: Context, fin: State, cond: Expr, body: seq<Stmt>, step: Option<Increment>, scope: set<string>, fr: Frames,
      good: set<string>, st: State, k: nat, next: nat)
    requires k == (if step.Some? then 4 else 3) && next == |st.blocks| + if step.Some? then 2 else 0
    requires Valid(st) && !Closed(st) && Names(st) && scope <= st.syms.Keys
    requires Within(LowerLoop(c.voids, cond, body, step, st), fin)
    requires ExprIn(cond, scope) && Valued(c.voids, cond)
    requires WellScopedList(body, scope, true) && CondsValuedList(c.voids, body)
    requires Good(st.syms, fr, c.globals, good) && Below(fr, st.nextTemp) && ExprIn(cond, good)
      && FaithfulList(body, good)
    requires step.Some? ==> StepIn(step.value, good - DeclsList(body))
    ensures var head := |st.blocks|;
            var h := LoopHead(c.voids, cond, k, st);
            && Within(LoopEntry(k, st), fin)
            && LoopCode(c, fin, cond, body, step, scope, fr, good, LoopEntry(k, st), h,
                        LowerArm(c.voids, body, head + 1, next, Inside(h, head + k - 1, next)), next, head + k - 1)
  {
    var head := |st.blocks|;
    var h := LoopHead(c.voids, cond, k, st);
    var arm := LowerArm(c.voids, body, head + 1, next, Inside(h, head + k - 1, next));
    WiderScope(cond, scope, st.syms.Keys);
    LoopHeadOk(c.voids, cond, k, st);
    LoopHeadNames(c.voids, cond, k, st);
    assert Good(h.syms, fr, c.globals, good) && Below(fr, h.nextTemp) by {
      GoodKept(st, h, {}, fr, c.globals, good);
      assert good - {} == good;
      BelowMore(fr, st.nextTemp, h.nextTemp);
    }
    if step.None? {
      LoopParts(c.voids, cond, body, step, st, k, next);
    } else {
      LoopStepPiece(c, fin, cond, body, step.value, scope, fr, good, st, h, arm);
    }
    BodyPiece(c, fin, body, scope, fr, good, head, k, next, h);
    HeadPiece(c, fin, cond, k, fr, good, st);
    LoopWhole(c, fin, cond, body, step, scope, fr, good, LoopEntry(k, st), h, arm, next, head + k - 1);
  }

  lemma {:induction false} OutFacts(
      c: Context, body: seq<Stmt>, scope: set<string>, fr: Frames, good: set<string>, st: State, h: State, arm: State,
      k: nat, next: nat)
    requires Valid(st) && Advance(st, h) && Names(h) && k == 4 && next == |st.blocks| + 2
    requires |h.blocks| == |st.blocks| + 4 && forall b | |st.blocks| < b < |h.blocks| :: h.blocks[b] == []
    requires arm == LowerArm(c.voids, body, |st.blocks| + 1, next, Inside(h, |st.blocks| + 3, next))
    requires scope <= h.syms.Keys && WellScopedList(body, scope, true) && Good(h.syms, fr, c.globals, good)
    ensures var out := arm.(loops := h.loops);
            && Valid(out.(cur := next)) && Names(out) && Good(out.syms, fr, c.globals, good - DeclsList(body))
            && |h.blocks| <= |out.blocks| && out.blocks[next] == []
  {
    var inner := Inside(h, |st.blocks| + 3, next);
    InsideValid(h, |st.blocks| + 3, next);
    LowerArmOk(c.voids, body, |st.blocks| + 1, next, scope, inner);
    LowerArmNames(c.voids, body, |st.blocks| + 1, next, scope, inner);
    GoodKept(inner, arm, DeclsList(body), fr, c.globals, good);
    OutsideValid(h, arm);
    Kept(inner.(cur := |st.blocks| + 1), arm, next);
  }

  // ----- while and for -----

  lemma {:induction false} LoopExit(
      c: Context, fin: State, cond: Expr, body: seq<Stmt>, step: Option<Increment>, scope: set<string>, fr: Frames,
      st: State, merge: nat)
    requires Valid(st) && !Closed(st) && scope <= st.syms.Keys
    requires ExprIn(cond, scope) && WellScopedList(body, scope, true)
    requires merge == |st.blocks| + if step.Some? then 3 else 2
    ensures var st' := LowerLoop(c.voids, cond, body, step, st);
      st'.cur < |st'.blocks| && !Closed(st') && EndOf(fin, st', st.loops, fr) == Exits(merge, 0, st.loops, fr)
  {
    LowerLoopOk(c.voids, cond, body, step, scope, st);
  }

  /** What leaves no loop leaves none of those around it. */
  lemma {:induction false} LandsInLoops(
      c: Context, m: Machine, fin: State, merge: nat, loops: seq<Targets>, fr: Frames, o: Outcome, fuel: nat,
      start: Config, n: nat, mem: Memory)
    requires Lands(c, m, fin, Exits(merge, 0, [], fr), o, fuel, start, n, mem)
    ensures Lands(c, m, fin, Exits(merge, 0, loops, fr), o, fuel, start, n, mem)
  {
  }

  lemma {:induction false} SimLoop(
      c: Context, m: Machine, fin: State, cond: Expr, body: seq<Stmt>, step: Option<Increment>, s: Mem, fr: Frames,
      good: set<string>, st: State, mem: Memory, fuel: nat)
      returns (n: nat, mem': Memory)
    requires Ready(c, m, fin, s, fr, st, mem) && Visible(c, s) <= st.syms.Keys
    requires Within(LowerLoop(c.voids, cond, body, step, st), fin)
    requires ExprIn(cond, Visible(c, s)) && Valued(c.voids, cond)
    requires WellScopedList(body, Visible(c, s), true) && CondsValuedList(c.voids, body)
    requires Good(st.syms, fr, c.globals, good) && Below(fr, st.nextTemp) && ExprIn(cond, good)
      && FaithfulList(body, good)
    requires step.Some? ==> StepIn(step.value, good - DeclsList(body))
    ensures var st' := LowerLoop(c.voids, cond, body, step, st);
            && st'.cur < |st'.blocks|
            && Lands(c, m, fin, EndOf(fin, st', st.loops, fr), ExecLoop(c, cond, body, step, s, fuel), fuel,
                     Here(fin, st, mem), n, mem')
            && !Closed(st')
    decreases fuel, body, 5
  {
    var merge := |st.blocks| + if step.Some? then 3 else 2;
    LoopExit(c, fin, cond, body, step, Visible(c, s), fr, st, merge);
    n, mem' := SimLoopTurns(c, m, fin, cond, body, step, s, fr, good, st, mem, fuel);
    LandsInLoops(c, m, fin, merge, st.loops, fr, ExecLoop(c, cond, body, step, s, fuel), fuel, Here(fin, st, mem), n,
      mem');
  }

  /** The pieces of a loop are in place. */
  ghost predicate Prepared(
      c: Context, fin: State, cond: Expr, body: seq<Stmt>, step: Option<Increment>, scope: set<string>, fr: Frames,
      good: set<string>, st: State, k: nat, next: nat)
    requires 0 < k
  {
    forall z {:trigger Unseal(z)} :: Unseal(z) ==>
      var h := LoopHead(c.voids, cond, k, st);
      var arm := LowerArm(c.voids, body, |st.blocks| + 1, next, Inside(h, |st.blocks| + k - 1, next));
      && Within(LoopEntry(k, st), fin)
      && LoopCode(c, fin, cond, body, step, scope, fr, good, LoopEntry(k, st), h, arm, next, |st.blocks| + k - 1)
  }

  lemma {:induction false} LoopPrepared(
      c: Context, fin: State, cond: Expr, body: seq<Stmt>, step: Option<Increment>, scope: set<string>, fr: Frames,
      good: set<string>, st: State, k: nat, next: nat)
    requires k == (if step.Some? then 4 else 3) && next == |st.blocks| + if step.Some? then 2 else 0
    requires Valid(st) && !Closed(st) && Names(st) && scope <= st.syms.Keys
    requires Within(LowerLoop(c.voids, cond, body, step, st), fin)
    requires ExprIn(cond, scope) && Valued(c.voids, cond)
    requires WellScopedList(body, scope, true) && CondsValuedList(c.voids, body)
    requires Good(st.syms, fr, c.globals, good) && Below(fr, st.nextTemp) && ExprIn(cond, good)
      && FaithfulList(body, good)
    requires step.Some? ==> StepIn(step.value, good - DeclsList(body))
    ensures Prepared(c, fin, cond, body, step, scope, fr, good, st, k, next)
  {
    LoopPieces(c, fin, cond, body, step, scope, fr, good, st, k, next);
  }

  /** A loop whose pieces are in place, from the state `st` before it. */
  lemma {:induction false} SimEnteredLoop(
      c: Context, m: Machine, fin: State, cond: Expr, body: seq<Stmt>, step: Option<Increment>, s: Mem, fr: Frames,
      good: set<string>, st: State, k: nat, h: State, arm: State, next: nat, merge: nat, mem: Memory, fuel: nat)
      returns (n: nat, mem': Memory)
    requires Ready(c, m, fin, s, fr, st, mem) && 0 < k && Within(LoopEntry(k, st), fin)
    requires LoopCode(c, fin, cond, body, step, Visible(c, s), fr, good, LoopEntry(k, st), h, arm, next, merge)
    ensures Lands(c, m, fin, Exits(merge, 0, [], fr), ExecLoop(c, cond, body, step, s, fuel), fuel,
      Here(fin, st, mem), n, mem')
    decreases fuel, body, 4, 1
  {
    n, mem' := SimTurns(c, m, fin, cond, body, step, s, fr, good, LoopEntry(k, st), h, arm, next, merge, mem, fuel);
    n := SimEntryThen(c, m, fin, st, mem, k, Exits(merge, 0, [], fr), ExecLoop(c, cond, body, step, s, fuel), fuel, n,
      mem');
  }

  lemma {:induction false} SimPrepared(
      c: Context, m: Machine, fin: State, cond: Expr, body: seq<Stmt>, step: Option<Increment>, s: Mem, fr: Frames,
      good: set<string>, st: State, k: nat, next: nat, mem: Memory, fuel: nat)
      returns (n: nat, mem': Memory)
    requires Ready(c, m, fin, s, fr, st, mem) && 0 < k
    requires Prepared(c, fin, cond, body, step, Visible(c, s), fr, good, st, k, next)
    ensures Lands(c, m, fin, Exits(|st.blocks| + k - 1, 0, [], fr), ExecLoop(c, cond, body, step, s, fuel), fuel,
      Here(fin, st, mem), n, mem')
    decreases fuel, body, 4, 2
  {
    assert Unseal(0);
    var h, merge := LoopHead(c.voids, cond, k, st), |st.blocks| + k - 1;
    var arm := LowerArm(c.voids, body, |st.blocks| + 1, next, Inside(h, merge, next));
    n, mem' := SimEnteredLoop(c, m, fin, cond, body, step, s, fr, good, st, k, h, arm, next, merge, mem, fuel);
  }

  lemma {:induction false} SimLoopTurns(
      c: Context, m: Machine, fin: State, cond: Expr, body: seq<Stmt>, step: Option<Increment>, s: Mem, fr: Frames,
      good: set<string>, st: State, mem: Memory, fuel: nat)
      returns (n: nat, mem': Memory)
    requires Ready(c, m, fin, s, fr, st, mem) && Visible(c, s) <= st.syms.Keys
    requires Within(LowerLoop(c.voids, cond, body, step, st), fin)
    requires ExprIn(cond, Visible(c, s)) && Valued(c.voids, cond)
    requires WellScopedList(body, Visible(c, s), true) && CondsValuedList(c.voids, body)
    requires Good(st.syms, fr, c.globals, good) && Below(fr, st.nextTemp) && ExprIn(cond, good)
      && FaithfulList(body, good)
    requires step.Some? ==> StepIn(step.value, good - DeclsList(body))
    ensures var k := if step.Some? then 4 else 3;
            Lands(c, m, fin, Exits(|st.blocks| + k - 1, 0, [], fr), ExecLoop(c, cond, body, step, s, fuel), fuel,
                  Here(fin, st, mem), n, mem')
    decreases fuel, body, 4, 3
  {
    var head := |st.blocks|;
    var k := if step.Some? then 4 else 3;
    var next := if step.Some? then head + 2 else head;
    LoopPrepared(c, fin, cond, body, step, Visible(c, s), fr, good, st, k, next);
    n, mem' := SimPrepared(c, m, fin, cond, body, step, s, fr, good, st, k, next, mem, fuel);
  }

  lemma {:induction false} SimEntry(c: Context, m: Machine, fin: State, st: State, mem: Memory, k: nat)
    requires Linked(c, m, fin) && Valid(st) && !Closed(st) && 0 < k && Within(LoopEntry(k, st), fin)
    ensures Run(m, Here(fin, st, mem), 1) == At(LoopEntry(k, st).cur, 0, mem)
  {
    var st0 := AddBlocks(st, k);
    AddBlocksOk(st, k);
    assert Here(fin, st0, mem) == Here(fin, st, mem);
    SimEnd(c, m, fin, st0, Br(|st.blocks|), mem);
  }

  /** The jump into a loop, and what the loop does from there. */
  lemma {:induction false} SimEntryThen(
      c: Context, m: Machine, fin: State, st: State, mem: Memory, k: nat, x: Exits, o: Outcome, fuel: nat, n: nat,
      mem': Memory)
      returns (n': nat)
    requires Linked(c, m, fin) && Valid(st) && !Closed(st) && 0 < k && Within(LoopEntry(k, st), fin)
    requires Lands(c, m, fin, x, o, fuel, At(LoopEntry(k, st).cur, 0, mem), n, mem')
    ensures Lands(c, m, fin, x, o, fuel, Here(fin, st, mem), n', mem')
  {
    SimEntry(c, m, fin, st, mem, k);
    LandsAfter(c, m, fin, x, o, fuel, Here(fin, st, mem), 1, At(LoopEntry(k, st).cur, 0, mem), n, mem');
    n' := 1 + n;
  }

  lemma {:induction false} ForPieces(c: Context, fin: State, stmt: Stmt, scope: set<string>, st: State)
    requires stmt.For? && Valid(st) && !Closed(st) && Names(st)
    requires scope <= st.syms.Keys && WellScoped(stmt, scope, st.loops != [])
    requires Within(LowerStmt(c.voids, stmt, st), fin)
    ensures var st1 := LowerDecl(c.voids, stmt.name, stmt.init, st);
            && LowerStmt(c.voids, stmt, st) == LowerLoop(c.voids, stmt.cond, stmt.body, Some(stmt.step), st1)
            && Valid(st1) && !Closed(st1) && Names(st1) && Within(st1, fin) && st1.loops == st.loops
  {
    var st1 := LowerDecl(c.voids, stmt.name, stmt.init, st);
    ForParts(c.voids, stmt, st);
    LowerDeclOk(c.voids, stmt.name, stmt.init, st);
    LowerDeclNames(c.voids, stmt.name, stmt.init, st);
    LowerLoopOk(c.voids, stmt.cond, stmt.body, Some(stmt.step), scope + {stmt.name}, st1);
    LowerLoopNames(c.voids, stmt.cond, stmt.body, Some(stmt.step), scope + {stmt.name}, st1);
    WithinBefore(st1, LowerStmt(c.voids, stmt, st), fin);
  }

  /** The declaration of a For, in a scope of its own. */
  lemma {:induction false} SimForDecl(
      c: Context, m: Machine, fin: State, stmt: Stmt, s: Mem, fr: Frames, good: set<string>, st: State, mem: Memory)
      returns (n: nat, mem': Memory)
    requires stmt.For?
    requires Ready(c, m, fin, s, fr, st, mem) && Sound(c, stmt, s, fr, good, st)
    requires Within(LowerStmt(c.voids, stmt, st), fin)
    ensures var st1 := LowerDecl(c.voids, stmt.name, stmt.init, st);
            var s1 := Declared(c, stmt.name, stmt.init, s.(env := Push(s.env)));
            && LowerStmt(c.voids, stmt, st) == LowerLoop(c.voids, stmt.cond, stmt.body, Some(stmt.step), st1)
            && st1.cur < |st1.blocks| && st1.loops == st.loops
            && Run(m, Here(fin, st, mem), n) == Here(fin, st1, mem')
            && Ready(c, m, fin, s1, ForFrames(stmt, st, fr), st1, mem')
            && Visible(c, s1) == Visible(c, s) + {stmt.name} && Visible(c, s1) <= st1.syms.Keys
  {
    var s0, fr0 := s.(env := Push(s.env)), fr + [map[]];
    ForPieces(c, fin, stmt, Visible(c, s), st);
    RelPush(c, s, fr, fin, mem);
    BelowPush(fr, st.nextTemp);
    GoodPush(st.syms, fr, c.globals, good);
    LowerDeclOk(c.voids, stmt.name, stmt.init, st);
    DeclNext(c.voids, stmt.name, stmt.init, st);
    n, mem' := SimDecl(c, m, fin, stmt.name, stmt.init, s0, fr0, good, st, mem);
    assert DeclareSlot(fr0, stmt.name, Temp(st.nextTemp)) == ForFrames(stmt, st, fr);
    var (v, s2) := EvalOr0(c, stmt.init, s0);
    DeclareKeys(s2.env, stmt.name, v);
  }

  /** In the loop of a For its variable is right, and what was right before. */
  lemma {:induction false} ForGood(c: Context, stmt: Stmt, fr: Frames, good: set<string>, st: State)
    requires stmt.For? && Valid(st) && !Closed(st) && Names(st)
    requires Good(st.syms, fr, c.globals, good) && Below(fr, st.nextTemp)
    ensures var st1 := LowerDecl(c.voids, stmt.name, stmt.init, st);
            Good(st1.syms, ForFrames(stmt, st, fr), c.globals, good + {stmt.name})
            && Below(ForFrames(stmt, st, fr), st1.nextTemp)
  {
    var fr0 := fr + [map[]];
    var st1 := LowerDecl(c.voids, stmt.name, stmt.init, st);
    assert DeclareSlot(fr0, stmt.name, Temp(st.nextTemp)) == ForFrames(stmt, st, fr);
    LowerDeclOk(c.voids, stmt.name, stmt.init, st);
    DeclNext(c.voids, stmt.name, stmt.init, st);
    GoodPush(st.syms, fr, c.globals, good);
    GoodDeclared(st.syms, fr0, c.globals, good, stmt.name, Temp(st.nextTemp));
    BelowPush(fr, st.nextTemp);
    DeclareBelow(fr0, stmt.name, st.nextTemp);
    BelowMore(ForFrames(stmt, st, fr), st.nextTemp + 1, st1.nextTemp);
  }

  lemma {:induction false} SimFor(
      c: Context, m: Machine, fin: State, stmt: Stmt, s: Mem, fr: Frames, good: set<string>, st: State, mem: Memory,
      fuel: nat)
      returns (n: nat, mem': Memory)
    requires stmt.For?
    requires Ready(c, m, fin, s, fr, st, mem) && Sound(c, stmt, s, fr, good, st)
    requires Within(LowerStmt(c.voids, stmt, st), fin)
    ensures var st' := LowerStmt(c.voids, stmt, st);
            && st'.cur < |st'.blocks|
            && Lands(c, m, fin, EndOf(fin, st', st.loops, fr), Exec(c, stmt, s, fuel), fuel, Here(fin, st, mem), n,
              mem')
            && !Closed(st')
    decreases fuel, stmt, 3
  {
    var s1 := Declared(c, stmt.name, stmt.init, s.(env := Push(s.env)));
    var st1 := LowerDecl(c.voids, stmt.name, stmt.init, st);
    var n1, mem1 := SimForDecl(c, m, fin, stmt, s, fr, good, st, mem);
    ForGood(c, stmt, fr, good, st);
    n, mem' := SimForLoop(c, m, fin, stmt, s1, fr, ForFrames(stmt, st, fr), good + {stmt.name}, st1,
      Here(fin, st, mem), n1,
                          mem1, fuel);
  }

  /** The loop of a For, from where `n1` steps have led past its declaration. */
  lemma {:induction false} SimForLoop(
      c: Context, m: Machine, fin: State, stmt: Stmt, s: Mem, outer: Frames, fr: Frames, good: set<string>, st: State,
      start: Config, n1: nat, mem: Memory, fuel: nat)
      returns (n: nat, mem': Memory)
    requires stmt.For? && Ready(c, m, fin, s, fr, st, mem) && |s.env| > 0 && Visible(c, s) <= st.syms.Keys
    requires fr != [] && fr[..|fr| - 1] == outer
    requires Within(LowerLoop(c.voids, stmt.cond, stmt.body, Some(stmt.step), st), fin)
    requires ExprIn(stmt.cond, Visible(c, s)) && Valued(c.voids, stmt.cond)
    requires WellScopedList(stmt.body, Visible(c, s), true) && CondsValuedList(c.voids, stmt.body)
    requires Good(st.syms, fr, c.globals, good) && Below(fr, st.nextTemp)
    requires ExprIn(stmt.cond, good) && FaithfulList(stmt.body, good) && StepIn(stmt.step, good - DeclsList(stmt.body))
    requires Run(m, start, n1) == Here(fin, st, mem)
    ensures var st' := LowerLoop(c.voids, stmt.cond, stmt.body, Some(stmt.step), st);
            var o := ExecLoop(c, stmt.cond, stmt.body, Some(stmt.step), s, fuel);
            && st'.cur < |st'.blocks|
            && Lands(c, m, fin, EndOf(fin, st', st.loops, outer), PopOutcome(o), fuel, start, n, mem')
            && !Closed(st')
    decreases fuel, stmt, 2
  {
    var st' := LowerLoop(c.voids, stmt.cond, stmt.body, Some(stmt.step), st);
    var o := ExecLoop(c, stmt.cond, stmt.body, Some(stmt.step), s, fuel);
    n, mem' := SimLoop(c, m, fin, stmt.cond, stmt.body, Some(stmt.step), s, fr, good, st, mem, fuel);
    LandsOut(c, m, fin, EndOf(fin, st', st.loops, fr), EndOf(fin, st', st.loops, outer), o, fuel, start, n1,
      Here(fin, st, mem), n, mem');
    n := n1 + n;
  }
}
