/** Static conditions on a body. The first is what the validator checks (src/frontend/semantics/validator.c),
    the others are where the lowering's own behaviour draws the line. */
module Scope {
  import opened Wrappers
  import opened Ast

  predicate ExprIn(e: Expr, scope: set<string>)
    decreases e
  {
    match e
    case Const(_) => true
    case Var(x) => x in scope
    case Binary(_, l, r) => ExprIn(l, scope) && ExprIn(r, scope)
    case Call(_, es) => forall i | 0 <= i < |es| :: ExprIn(es[i], scope)
  }

  lemma {:induction false} WiderScope(e: Expr, scope: set<string>, wider: set<string>)
    requires ExprIn(e, scope) && scope <= wider
    ensures ExprIn(e, wider)
    decreases e
  {
    match e
    case Binary(_, l, r) =>
      WiderScope(l, scope, wider);
      WiderScope(r, scope, wider);
    case Call(_, es) =>
      forall i | 0 <= i < |es|
        ensures ExprIn(es[i], wider)
      {
        WiderScope(es[i], scope, wider);
      }
    case _ =>
  }

  predicate InitIn(e: Option<Expr>, scope: set<string>) {
    e.Some? ==> ExprIn(e.value, scope)
  }

  function ScopeAfter(s: Stmt, scope: set<string>): set<string> {
    if s.VarDecl? then scope + {s.name} else scope
  }

  /** Every name is visible where it is used, and break and continue stand inside a loop. */
  predicate WellScoped(s: Stmt, scope: set<string>, inLoop: bool)
    decreases s
  {
    match s
    case ExprStmt(e) => ExprIn(e, scope)
    case Return(e) => InitIn(e, scope)
    case Block(body) => WellScopedList(body, scope, inLoop)
    case If(cond, thn, els) =>
      && ExprIn(cond, scope)
      && WellScopedList(thn, scope, inLoop)
      && (els.Else? ==> WellScopedList(els.body, scope, inLoop))
    case While(cond, body) => ExprIn(cond, scope) && WellScopedList(body, scope, true)
    case For(x, init, cond, step, body) =>
      && InitIn(init, scope)
      && ExprIn(cond, scope + {x})
      && StepIn(step, scope + {x})
      && WellScopedList(body, scope + {x}, true)
    case Break => inLoop
    case Continue => inLoop
    case VarDecl(x, init) => InitIn(init, scope)
    case Assign(x, e) => x in scope && ExprIn(e, scope)
  }

  predicate StepIn(step: Increment, scope: set<string>) {
    step.target in scope && ExprIn(step.value, scope)
  }

  predicate WellScopedList(ss: seq<Stmt>, scope: set<string>, inLoop: bool)
    decreases ss
  {
    ss == [] || (WellScoped(ss[0], scope, inLoop) && WellScopedList(ss[1..], ScopeAfter(ss[0], scope), inLoop))
  }

  // ----- statements that are never reached -----

  /** The statement ends its block: nothing after it in the same block is lowered. */
  predicate Ends(s: Stmt)
    decreases s
  {
    s.Return? || s.Break? || s.Continue? || (s.Block? && EndsList(s.body))
  }

  predicate EndsList(ss: seq<Stmt>)
    decreases ss
  {
    ss != [] && (Ends(ss[0]) || EndsList(ss[1..]))
  }

  // ----- declarations and shadowing -----

  /** The names declared anywhere in the lowered part of a statement. */
  function Decls(s: Stmt): set<string>
    decreases s
  {
    match s
    case Block(body) => DeclsList(body)
    case If(_, thn, els) => DeclsList(thn) + if els.Else? then DeclsList(els.body) else {}
    case While(_, body) => DeclsList(body)
    case For(x, _, _, _, body) => {x} + DeclsList(body)
    case VarDecl(x, _) => {x}
    case _ => {}
  }

  function DeclsList(ss: seq<Stmt>): set<string>
    decreases ss
  {
    if ss == [] then {} else Decls(ss[0]) + if Ends(ss[0]) then {} else DeclsList(ss[1..])
  }

  // ----- names that are right where they are used -----

  /** The names that are right after a statement, if those of `good` were right before it: an inner
      declaration stays in the flat table and hides the outer one for good. */
  function GoodAfter(s: Stmt, good: set<string>): set<string> {
    if s.VarDecl? then good + {s.name} else good - Decls(s)
  }

  /** Every name that is used in the lowered part of the statement is right when its use is lowered. */
  predicate Faithful(s: Stmt, good: set<string>)
    decreases s
  {
    match s
    case ExprStmt(e) => ExprIn(e, good)
    case Return(e) => InitIn(e, good)
    case Block(body) => FaithfulList(body, good)
    case If(cond, thn, els) =>
      && ExprIn(cond, good)
      && FaithfulList(thn, good)
      && (els.Else? ==> FaithfulList(els.body, good - DeclsList(thn)))
    case While(cond, body) => ExprIn(cond, good) && FaithfulList(body, good)
    case For(x, init, cond, step, body) =>
      && InitIn(init, good - {x})
      && ExprIn(cond, good + {x})
      && FaithfulList(body, good + {x})
      && StepIn(step, good + {x} - DeclsList(body))
    case Break => true
    case Continue => true
    case VarDecl(x, init) => InitIn(init, good - {x})
    case Assign(x, e) => x in good && ExprIn(e, good)
  }

  predicate FaithfulList(ss: seq<Stmt>, good: set<string>)
    decreases ss
  {
    ss == [] || (Faithful(ss[0], good) && (Ends(ss[0]) || FaithfulList(ss[1..], GoodAfter(ss[0], good))))
  }

  // ----- no shadowing at all -----

  /** No lowered declaration has the name of something visible there. */
  predicate NoShadow(s: Stmt, scope: set<string>)
    decreases s
  {
    match s
    case Block(body) => NoShadowList(body, scope)
    case If(_, thn, els) => NoShadowList(thn, scope) && (els.Else? ==> NoShadowList(els.body, scope))
    case While(_, body) => NoShadowList(body, scope)
    case For(x, _, _, _, body) => x !in scope && NoShadowList(body, scope + {x})
    case VarDecl(x, _) => x !in scope
    case _ => true
  }

  predicate NoShadowList(ss: seq<Stmt>, scope: set<string>)
    decreases ss
  {
    ss == [] || (NoShadow(ss[0], scope) && (Ends(ss[0]) || NoShadowList(ss[1..], ScopeAfter(ss[0], scope))))
  }

  lemma {:induction false} NoShadowDecls(s: Stmt, scope: set<string>)
    requires NoShadow(s, scope)
    ensures Decls(s) !! scope
    decreases s
  {
    match s
    case Block(body) => NoShadowDeclsList(body, scope);
    case If(_, thn, els) =>
      NoShadowDeclsList(thn, scope);
      if els.Else? {
        NoShadowDeclsList(els.body, scope);
      }
    case While(_, body) => NoShadowDeclsList(body, scope);
    case For(x, _, _, _, body) => NoShadowDeclsList(body, scope + {x});
    case _ =>
  }

  lemma {:induction false} NoShadowDeclsList(ss: seq<Stmt>, scope: set<string>)
    requires NoShadowList(ss, scope)
    ensures DeclsList(ss) !! scope
    decreases ss
  {
    if ss == [] {
    } else {
      NoShadowDecls(ss[0], scope);
      if !Ends(ss[0]) {
        NoShadowDeclsList(ss[1..], ScopeAfter(ss[0], scope));
      }
    }
  }

  // ----- conditions with a value -----

  /** The expression has a value: no void call stands where an operand is needed. */
  predicate Valued(voids: set<string>, e: Expr)
    decreases e
  {
    match e
    case Binary(_, l, r) => Valued(voids, l) && Valued(voids, r)
    case Call(f, _) => Resolve(f) !in voids
    case _ => true
  }

  /** Every lowered condition has a value. */
  predicate CondsValued(voids: set<string>, s: Stmt)
    decreases s
  {
    match s
    case Block(body) => CondsValuedList(voids, body)
    case If(cond, thn, els) =>
      && Valued(voids, cond)
      && CondsValuedList(voids, thn)
      && (els.Else? ==> CondsValuedList(voids, els.body))
    case While(cond, body) => Valued(voids, cond) && CondsValuedList(voids, body)
    case For(_, _, cond, _, body) => Valued(voids, cond) && CondsValuedList(voids, body)
    case _ => true
  }

  predicate CondsValuedList(voids: set<string>, ss: seq<Stmt>)
    decreases ss
  {
    ss == [] || (CondsValued(voids, ss[0]) && (Ends(ss[0]) || CondsValuedList(voids, ss[1..])))
  }

  // ----- loop nesting -----

  function Max(a: nat, b: nat): nat {
    if a < b then b else a
  }

  /** How many loops are open at once inside a statement: the loop stack has 128 entries. */
  function Nesting(s: Stmt): nat
    decreases s
  {
    match s
    case Block(body) => NestingList(body)
    case If(_, thn, els) => Max(NestingList(thn), if els.Else? then NestingList(els.body) else 0)
    case While(_, body) => 1 + NestingList(body)
    case For(_, _, _, _, body) => 1 + NestingList(body)
    case _ => 0
  }

  function NestingList(ss: seq<Stmt>): nat
    decreases ss
  {
    if ss == [] then 0 else Max(Nesting(ss[0]), NestingList(ss[1..]))
  }

  lemma {:induction false} NestingWithin(ss: seq<Stmt>, i: nat)
    requires i < |ss|
    ensures Nesting(ss[i]) <= NestingList(ss)
    decreases ss
  {
    if i == 0 {
    } else {
      NestingWithin(ss[1..], i - 1);
    }
  }
}
