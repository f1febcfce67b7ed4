/** Uses that resolve to the right name. */
module Resolution {
  import opened Wrappers
  import opened Ast
  import opened Ir
  import opened Lower
  import opened Scope
  import opened LowerShape
  import opened LowerFacts
  import opened LowerNames
  import opened Relation

  // ----- names the table has right -----

  /** The entry of `x` is what `x` means by the rules of scoping. */
  predicate Right(syms: Syms, fr: Frames, globals: set<string>, x: string) {
    x in syms && Meaning(fr, globals, x) == Some(syms[x])
  }

  ghost predicate ExactAt(syms: Syms, fr: Frames, globals: set<string>, good: set<string>, x: string) {
    x in good <==> Right(syms, fr, globals, x)
  }

  /** The table has exactly the names of `good` right. */
  ghost predicate Exactly(syms: Syms, fr: Frames, globals: set<string>, good: set<string>) {
    forall x {:trigger ExactAt(syms, fr, globals, good, x)} :: ExactAt(syms, fr, globals, good, x)
  }

  lemma {:induction false} MeaningBelow(fr: Frames, globals: set<string>, x: string, n: nat)
    requires Below(fr, n) && Meaning(fr, globals, x).Some?
    ensures var o := Meaning(fr, globals, x).value; o.Global? || (o.Temp? && o.id < n)
    decreases |fr|
  {
    if fr == [] {
    } else {
      var outer := fr[..|fr| - 1];
      assert BelowAt(fr, n, |fr| - 1, x);
      if x !in fr[|fr| - 1] {
        forall i, y
          ensures BelowAt(outer, n, i, y)
        {
          assert BelowAt(fr, n, i, y);
        }
        MeaningBelow(outer, globals, x, n);
      }
    }
  }

  /** Lowering a piece of code that declares `decls` in scopes of its own: of the names that the table had
      right it has exactly those right still that are not among them. */
  lemma {:induction false} ExactKept(
      st: State, st': State, decls: set<string>, fr: Frames, globals: set<string>, good: set<string>)
    requires Exactly(st.syms, fr, globals, good) && Renames(st, st', decls) && Below(fr, st.nextTemp)
    ensures Exactly(st'.syms, fr, globals, good - decls)
  {
    var good' := good - decls;
    forall x
      ensures ExactAt(st'.syms, fr, globals, good', x)
    {
      assert ExactAt(st.syms, fr, globals, good, x) && EntryFrom(st.syms, st.nextTemp, st'.syms, st'.slots, decls, x);
      if Meaning(fr, globals, x).Some? {
        MeaningBelow(fr, globals, x, st.nextTemp);
      }
    }
  }

  lemma {:induction false} ExactDeclared(
      syms: Syms, fr: Frames, globals: set<string>, good: set<string>, x: string, o: Operand)
    requires Exactly(syms, fr, globals, good) && |fr| > 0
    ensures Exactly(syms[x := o], DeclareSlot(fr, x, o), globals, good + {x})
  {
    var syms', fr', good' := syms[x := o], DeclareSlot(fr, x, o), good + {x};
    assert fr'[..|fr'| - 1] == fr[..|fr| - 1];
    forall y
      ensures ExactAt(syms', fr', globals, good', y)
    {
      assert ExactAt(syms, fr, globals, good, y);
    }
  }

  lemma {:induction false} ExactPush(syms: Syms, fr: Frames, globals: set<string>, good: set<string>)
    requires Exactly(syms, fr, globals, good)
    ensures Exactly(syms, fr + [map[]], globals, good)
  {
    var fr' := fr + [map[]];
    assert fr'[..|fr|] == fr;
    forall y
      ensures ExactAt(syms, fr', globals, good, y)
    {
      assert ExactAt(syms, fr, globals, good, y);
    }
  }

  /** The slot made for a declaration is not yet what its name means where the initialiser is lowered. */
  lemma {:induction false} ExactBound(st: State, x: string, fr: Frames, globals: set<string>, good: set<string>)
    requires Names(st) && Exactly(st.syms, fr, globals, good) && Below(fr, st.nextTemp)
    ensures Exactly(AddSlot(st, x).syms, fr, globals, good - {x})
  {
    AddSlotNames(st, x);
    ExactKept(st, AddSlot(st, x), {x}, fr, globals, good);
  }

  // ----- what lowering looks up -----

  predicate ResolvesExpr(e: Expr, syms: Syms, fr: Frames, globals: set<string>)
    decreases e
  {
    match e
    case Const(_) => true
    case Var(x) => Right(syms, fr, globals, x)
    case Binary(_, l, r) => ResolvesExpr(l, syms, fr, globals) && ResolvesExpr(r, syms, fr, globals)
    case Call(_, es) => forall i | 0 <= i < |es| :: ResolvesExpr(es[i], syms, fr, globals)
  }

  predicate ResolvesInit(e: Option<Expr>, syms: Syms, fr: Frames, globals: set<string>) {
    e.Some? ==> ResolvesExpr(e.value, syms, fr, globals)
  }

  /** Every name looked up while the statement is lowered from `st` has the entry that it means there. */
  predicate Resolves(voids: set<string>, s: Stmt, st: State, fr: Frames, globals: set<string>)
    requires |fr| > 0
    decreases s
  {
    match s
    case ExprStmt(e) => ResolvesExpr(e, st.syms, fr, globals)
    case Return(e) => ResolvesInit(e, st.syms, fr, globals)
    case Block(body) => ResolvesList(voids, body, st, fr + [map[]], globals)
    case If(cond, thn, els) =>
      var t := |st.blocks|;
      var h := IfHead(voids, s, st);
      && ResolvesExpr(cond, st.syms, fr, globals)
      && ResolvesList(voids, thn, h.(cur := t), fr + [map[]], globals)
      && (els.Else? ==>
            ResolvesList(voids, els.body, LowerArm(voids, thn, t, t + 2, h).(cur := t + 1), fr + [map[]], globals))
    case While(cond, body) => ResolvesLoop(voids, cond, body, None, st, fr, globals)
    case For(x, init, cond, step, body) =>
      && ResolvesInit(init, AddSlot(st, x).syms, fr, globals)
      && ResolvesLoop(voids, cond, body, Some(step), LowerDecl(voids, x, init, st), ForFrames(s, st, fr), globals)
    case Break => true
    case Continue => true
    case VarDecl(x, init) => ResolvesInit(init, AddSlot(st, x).syms, fr, globals)
    case Assign(x, e) => Right(st.syms, fr, globals, x) && ResolvesExpr(e, st.syms, fr, globals)
  }

  predicate ResolvesLoop(
      voids: set<string>, cond: Expr, body: seq<Stmt>, step: Option<Increment>, st: State, fr: Frames,
      globals: set<string>)
    requires |fr| > 0
    decreases body, 1
  {
    var head := |st.blocks|;
    var n := if step.Some? then 4 else 3;
    var next := if step.Some? then head + 2 else head;
    var h := LoopHead(voids, cond, n, st);
    && ResolvesExpr(cond, st.syms, fr, globals)
    && ResolvesList(voids, body, Inside(h, head + n - 1, next).(cur := head + 1), fr + [map[]], globals)
    && (step.Some? ==>
          var out := LowerBody(voids, body, head, n, next, h);
          Right(out.syms, fr, globals, step.value.target) && ResolvesExpr(step.value.value, out.syms, fr, globals))
  }

  predicate ResolvesList(voids: set<string>, ss: seq<Stmt>, st: State, fr: Frames, globals: set<string>)
    requires |fr| > 0
    decreases ss, 0
  {
    ss == [] ||
    (Resolves(voids, ss[0], st, fr, globals) &&
     var st1 := LowerStmt(voids, ss[0], st);
     (Closed(st1) || ResolvesList(voids, ss[1..], st1, FramesAfter(ss[0], st, fr), globals)))
  }

  // ----- the static condition is exact -----

  lemma {:induction false} ExprExactly(e: Expr, syms: Syms, fr: Frames, globals: set<string>, good: set<string>)
    requires Exactly(syms, fr, globals, good)
    ensures ResolvesExpr(e, syms, fr, globals) <==> ExprIn(e, good)
    decreases e
  {
    match e
    case Const(_) =>
    case Var(x) => assert ExactAt(syms, fr, globals, good, x);
    case Binary(_, l, r) =>
      ExprExactly(l, syms, fr, globals, good);
      ExprExactly(r, syms, fr, globals, good);
    case Call(_, es) =>
      forall i | 0 <= i < |es|
        ensures ResolvesExpr(es[i], syms, fr, globals) <==> ExprIn(es[i], good)
      {
        ExprExactly(es[i], syms, fr, globals, good);
      }
  }

  lemma {:induction false} InitExactly(
      e: Option<Expr>, syms: Syms, fr: Frames, globals: set<string>, good: set<string>)
    requires Exactly(syms, fr, globals, good)
    ensures ResolvesInit(e, syms, fr, globals) <==> InitIn(e, good)
  {
    if e.Some? {
      ExprExactly(e.value, syms, fr, globals, good);
    }
  }

  /** A state in which lowering may go on, with the scopes `fr` open. */
  ghost predicate From(st: State, fr: Frames, globals: set<string>, good: set<string>) {
    && Valid(st) && !Closed(st) && Names(st)
    && |fr| > 0 && Below(fr, st.nextTemp) && Exactly(st.syms, fr, globals, good)
  }

  /** Every name that is used resolves to the declaration in scope if and only if the static condition
      holds, for any statement and any table. */
  lemma {:induction false} ResolvesExactly(
      voids: set<string>, s: Stmt, scope: set<string>, st: State, fr: Frames, globals: set<string>, good: set<string>)
    requires From(st, fr, globals, good)
    requires scope <= st.syms.Keys && WellScoped(s, scope, st.loops != [])
    ensures Resolves(voids, s, st, fr, globals) <==> Faithful(s, good)
    decreases s, 1
  {
    match s
    case ExprStmt(e) => ExprExactly(e, st.syms, fr, globals, good);
    case Return(e) => InitExactly(e, st.syms, fr, globals, good);
    case Block(body) =>
      FromPush(st, fr, globals, good);
      ResolvesListExactly(voids, body, scope, st, fr + [map[]], globals, good);
    case If(cond, thn, els) => ResolvesIfExactly(voids, s, scope, st, fr, globals, good);
    case While(cond, body) => ResolvesLoopExactly(voids, cond, body, None, scope, st, fr, globals, good);
    case For(x, init, cond, step, body) =>
      ExactBound(st, x, fr, globals, good);
      InitExactly(init, AddSlot(st, x).syms, fr, globals, good - {x});
      FromFor(voids, s, st, fr, globals, good);
      var st1 := LowerDecl(voids, x, init, st);
      ResolvesLoopExactly(voids, cond, body, Some(step), scope + {x}, st1, ForFrames(s, st, fr), globals, good + {x});
    case Break =>
    case Continue =>
    case VarDecl(x, init) =>
      ExactBound(st, x, fr, globals, good);
      InitExactly(init, AddSlot(st, x).syms, fr, globals, good - {x});
    case Assign(x, e) =>
      assert ExactAt(st.syms, fr, globals, good, x);
      ExprExactly(e, st.syms, fr, globals, good);
  }

  /** After a statement the table has exactly those names right still that nothing lowered in it declares. */
  lemma {:induction false} EntriesKeptExactly(
      voids: set<string>, s: Stmt, scope: set<string>, st: State, fr: Frames, globals: set<string>, good: set<string>)
    requires From(st, fr, globals, good)
    requires scope <= st.syms.Keys && WellScoped(s, scope, st.loops != [])
    ensures Exactly(LowerStmt(voids, s, st).syms, fr, globals, good - Decls(s))
  {
    LowerStmtNames(voids, s, scope, st);
    ExactKept(st, LowerStmt(voids, s, st), Decls(s), fr, globals, good);
  }

  lemma {:induction false} FromPush(st: State, fr: Frames, globals: set<string>, good: set<string>)
    requires From(st, fr, globals, good)
    ensures From(st, fr + [map[]], globals, good)
  {
    BelowPush(fr, st.nextTemp);
    ExactPush(st.syms, fr, globals, good);
  }

  lemma {:induction false} FromFor(
      voids: set<string>, s: Stmt, st: State, fr: Frames, globals: set<string>, good: set<string>)
    requires s.For? && From(st, fr, globals, good)
    ensures var st1 := LowerDecl(voids, s.name, s.init, st);
            From(st1, ForFrames(s, st, fr), globals, good + {s.name}) && st1.loops == st.loops
            && st1.syms.Keys == st.syms.Keys + {s.name}
  {
    var fr0 := fr + [map[]];
    assert DeclareSlot(fr0, s.name, Temp(st.nextTemp)) == ForFrames(s, st, fr);
    FromPush(st, fr, globals, good);
    FromDeclared(voids, s.name, s.init, st, fr0, globals, good);
  }

  lemma {:induction false} FromDeclared(
      voids: set<string>, x: string, init: Option<Expr>, st: State, fr: Frames, globals: set<string>, good: set<string>)
    requires From(st, fr, globals, good)
    ensures var st1 := LowerDecl(voids, x, init, st);
            From(st1, DeclareSlot(fr, x, Temp(st.nextTemp)), globals, good + {x}) && st1.loops == st.loops
            && st1.syms.Keys == st.syms.Keys + {x}
  {
    var st1 := LowerDecl(voids, x, init, st);
    LowerDeclOk(voids, x, init, st);
    LowerDeclNames(voids, x, init, st);
    DeclNext(voids, x, init, st);
    ExactDeclared(st.syms, fr, globals, good, x, Temp(st.nextTemp));
    DeclareBelow(fr, x, st.nextTemp);
    BelowMore(DeclareSlot(fr, x, Temp(st.nextTemp)), st.nextTemp + 1, st1.nextTemp);
  }

  lemma {:induction false} ResolvesListExactly(
      voids: set<string>, ss: seq<Stmt>, scope: set<string>, st: State, fr: Frames, globals: set<string>,
      good: set<string>)
    requires From(st, fr, globals, good)
    requires scope <= st.syms.Keys && WellScopedList(ss, scope, st.loops != [])
    ensures ResolvesList(voids, ss, st, fr, globals) <==> FaithfulList(ss, good)
    decreases ss, 0
  {
    if ss == [] {
    } else {
      var st1 := LowerStmt(voids, ss[0], st);
      ResolvesExactly(voids, ss[0], scope, st, fr, globals, good);
      LowerStmtOk(voids, ss[0], scope, st);
      if !Closed(st1) {
        FromAfter(voids, ss[0], scope, st, fr, globals, good);
        ResolvesListExactly(voids, ss[1..], ScopeAfter(ss[0], scope), st1, FramesAfter(ss[0], st, fr), globals,
                            GoodAfter(ss[0], good));
      }
    }
  }

  lemma {:induction false} FromAfter(
      voids: set<string>, s: Stmt, scope: set<string>, st: State, fr: Frames, globals: set<string>, good: set<string>)
    requires From(st, fr, globals, good)
    requires scope <= st.syms.Keys && WellScoped(s, scope, st.loops != []) && !Closed(LowerStmt(voids, s, st))
    ensures From(LowerStmt(voids, s, st), FramesAfter(s, st, fr), globals, GoodAfter(s, good))
  {
    var st1 := LowerStmt(voids, s, st);
    LowerStmtOk(voids, s, scope, st);
    LowerStmtNames(voids, s, scope, st);
    if s.VarDecl? {
      FromDeclared(voids, s.name, s.init, st, fr, globals, good);
    } else {
      ExactKept(st, st1, Decls(s), fr, globals, good);
      BelowMore(fr, st.nextTemp, st1.nextTemp);
    }
  }

  /** The start of an arm, in an empty block, after `decls` have been declared since `st`. */
  lemma {:induction false} FromArm(
      st: State, h: State, arm: nat, decls: set<string>, fr: Frames, globals: set<string>, good: set<string>)
    requires Names(st) && |fr| > 0 && Below(fr, st.nextTemp) && Exactly(st.syms, fr, globals, good)
    requires Valid(h) && Renames(st, h, decls) && InRange(arm, |h.blocks|) && h.blocks[arm] == []
    ensures From(h.(cur := arm), fr + [map[]], globals, good - decls)
  {
    ExactKept(st, h, decls, fr, globals, good);
    BelowMore(fr, st.nextTemp, h.nextTemp);
    FromPush(h.(cur := arm), fr, globals, good - decls);
  }

  /** Where the else branch is lowered, the names declared in the other branch are wrong. */
  lemma {:induction false} ElseFrom(
      voids: set<string>, thn: seq<Stmt>, t: nat, scope: set<string>, st: State, h: State, a: State, fr: Frames,
      globals: set<string>, good: set<string>)
    requires From(st, fr, globals, good) && Valid(h) && Names(h) && Renames(st, h, {}) && h.loops == st.loops
    requires scope <= h.syms.Keys && WellScopedList(thn, scope, st.loops != [])
    requires 0 < t && |h.blocks| == t + 3 && forall b | t <= b < |h.blocks| :: h.blocks[b] == []
    requires a == LowerArm(voids, thn, t, t + 2, h)
    ensures From(a.(cur := t + 1), fr + [map[]], globals, good - DeclsList(thn)) && scope <= a.syms.Keys
      && a.loops == st.loops
  {
    LowerArmOk(voids, thn, t, t + 2, scope, h);
    LowerArmNames(voids, thn, t, t + 2, scope, h);
    Kept(h.(cur := t), a, t + 1);
    RenamesTrans(st, h, a, {}, DeclsList(thn));
    assert {} + DeclsList(thn) == DeclsList(thn);
    FromArm(st, a, t + 1, DeclsList(thn), fr, globals, good);
  }

  lemma {:induction false} ResolvesIfExactly(
      voids: set<string>, s: Stmt, scope: set<string>, st: State, fr: Frames, globals: set<string>, good: set<string>)
    requires s.If? && From(st, fr, globals, good)
    requires scope <= st.syms.Keys && WellScoped(s, scope, st.loops != [])
    ensures Resolves(voids, s, st, fr, globals) <==> Faithful(s, good)
    decreases s, 0
  {
    var t := |st.blocks|;
    var h := IfHead(voids, s, st);
    ExprExactly(s.cond, st.syms, fr, globals, good);
    WiderScope(s.cond, scope, st.syms.Keys);
    IfHeadOk(voids, s, st);
    IfHeadNames(voids, s, st);
    FromArm(st, h, t, {}, fr, globals, good);
    assert good - {} == good;
    ResolvesListExactly(voids, s.thn, scope, h.(cur := t), fr + [map[]], globals, good);
    if s.els.Else? {
      var a := LowerArm(voids, s.thn, t, t + 2, h);
      ElseFrom(voids, s.thn, t, scope, st, h, a, fr, globals, good);
      ResolvesListExactly(voids, s.els.body, scope, a.(cur := t + 1), fr + [map[]], globals, good - DeclsList(s.thn));
    }
  }

  lemma {:induction false} LoopBodyExactly(
      voids: set<string>, cond: Expr, body: seq<Stmt>, n: nat, next: nat, scope: set<string>, st: State, fr: Frames,
      globals: set<string>, good: set<string>)
    requires From(st, fr, globals, good) && n >= 3 && InRange(next, |st.blocks| + n)
    requires scope <= st.syms.Keys && ExprIn(cond, scope) && WellScopedList(body, scope, true)
    ensures var head := |st.blocks|;
            var inner := Inside(LoopHead(voids, cond, n, st), head + n - 1, next).(cur := head + 1);
            ResolvesList(voids, body, inner, fr + [map[]], globals) <==> FaithfulList(body, good)
    decreases body, 1
  {
    var head := |st.blocks|;
    var h := LoopHead(voids, cond, n, st);
    var inner := Inside(h, head + n - 1, next);
    WiderScope(cond, scope, st.syms.Keys);
    LoopHeadOk(voids, cond, n, st);
    LoopHeadNames(voids, cond, n, st);
    InsideValid(h, head + n - 1, next);
    FromArm(st, inner, head + 1, {}, fr, globals, good);
    assert good - {} == good;
    ResolvesListExactly(voids, body, scope, inner.(cur := head + 1), fr + [map[]], globals, good);
  }

  lemma {:induction false} LoopStepExactly(
      voids: set<string>, cond: Expr, body: seq<Stmt>, step: Increment, scope: set<string>, st: State, fr: Frames,
      globals: set<string>, good: set<string>)
    requires From(st, fr, globals, good)
    requires scope <= st.syms.Keys && ExprIn(cond, scope) && WellScopedList(body, scope, true)
    ensures var out := LowerBody(voids, body, |st.blocks|, 4, |st.blocks| + 2, LoopHead(voids, cond, 4, st));
            Right(out.syms, fr, globals, step.target) && ResolvesExpr(step.value, out.syms, fr, globals) <==>
            StepIn(step, good - DeclsList(body))
  {
    var head := |st.blocks|;
    var h := LoopHead(voids, cond, 4, st);
    var inner := Inside(h, head + 3, head + 2);
    WiderScope(cond, scope, st.syms.Keys);
    LoopHeadOk(voids, cond, 4, st);
    LoopHeadNames(voids, cond, 4, st);
    InsideValid(h, head + 3, head + 2);
    var arm := LowerArm(voids, body, head + 1, head + 2, inner);
    LowerArmNames(voids, body, head + 1, head + 2, scope, inner);
    RenamesTrans(st, inner, arm, {}, DeclsList(body));
    assert {} + DeclsList(body) == DeclsList(body);
    ExactKept(st, arm, DeclsList(body), fr, globals, good);
    var good' := good - DeclsList(body);
    assert ExactAt(arm.syms, fr, globals, good', step.target);
    ExprExactly(step.value, arm.syms, fr, globals, good');
  }

  lemma {:induction false} ResolvesLoopExactly(
      voids: set<string>, cond: Expr, body: seq<Stmt>, step: Option<Increment>, scope: set<string>, st: State,
      fr: Frames, globals: set<string>, good: set<string>)
    requires From(st, fr, globals, good)
    requires scope <= st.syms.Keys && ExprIn(cond, scope) && WellScopedList(body, scope, true)
    ensures ResolvesLoop(voids, cond, body, step, st, fr, globals) <==>
            ExprIn(cond, good) && FaithfulList(body, good)
              && (step.Some? ==> StepIn(step.value, good - DeclsList(body)))
    decreases body, 2
  {
    var head := |st.blocks|;
    ExprExactly(cond, st.syms, fr, globals, good);
    LoopBodyExactly(voids, cond, body, if step.Some? then 4 else 3, if step.Some? then head + 2 else head, scope, st,
      fr,
      globals, good);
    if step.Some? {
      LoopStepExactly(voids, cond, body, step.value, scope, st, fr, globals, good);
    }
  }
}
