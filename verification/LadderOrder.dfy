/** Which operators bind tighter, and what calls become: the order of the levels, in terms of the operators alone. */
module LadderOrder {
  import opened Wrappers
  import opened Slices
  import opened Ladder
  import opened LadderRoundTrip

  // ----- two operators in a row -----

  /** The operators, those that bind most loosely first. */
  const LEVELS: seq<set<Op>> :=
    [{Or}, {And}, {Eq, Ne, Lt, Le, Gt, Ge}, {Plus, Minus}, {Star, Slash, Percent}, {Caret}]

  /** The place of an operator in that list. */
  predicate Placed(op: Op, i: nat) {
    i < 6 && op in LEVELS[i]
  }

  lemma {:induction false} PlaceLevel(op: Op, i: nat)
    requires Placed(op, i)
    ensures OpLevel(op) == if i < 2 then i + 1 else i + 2
    ensures i == 5 <==> op == Caret
  {
    assert LEVELS[0] == {Or} && LEVELS[1] == {And} && LEVELS[2] == {Eq, Ne, Lt, Le, Gt, Ge}
      && LEVELS[3] == {Plus, Minus} && LEVELS[4] == {Star, Slash, Percent} && LEVELS[5] == {Caret};
  }

  lemma {:induction false} EveryOpPlaced(op: Op) returns (i: nat)
    ensures Placed(op, i)
  {
    i := match op
      case Or => 0
      case And => 1
      case Plus => 3
      case Minus => 3
      case Star => 4
      case Slash => 4
      case Percent => 4
      case Caret => 5
      case _ => 2;
  }

  /** Names, literals, calls, indices and members need no parentheses as operands. */
  predicate Operand(e: Tree) {
    !e.Binary? && !e.NotOf? && !e.Cast?
  }

  /** Three operands with an operator between each two. */
  function Row(a: Tree, op1: Op, b: Tree, op2: Op, c: Tree): Tokens {
    Bare(a) + [Operator(op1)] + Bare(b) + [Operator(op2)] + Bare(c)
  }

  lemma {:induction false} OperandPrints(e: Tree, level: Level)
    requires Operand(e)
    ensures Print(e, level) == Bare(e)
  {
  }

  lemma {:induction false} InnerPrints(op: Op, a: Tree, b: Tree, level: Level)
    requires Operand(a) && Operand(b) && level <= OpLevel(op)
    ensures Print(Binary(op, a, b), level) == Bare(a) + ([Operator(op)] + Bare(b))
  {
    OperandPrints(a, if op.Caret? then 8 else OpLevel(op));
    OperandPrints(b, if op.Caret? then 7 else OpLevel(op) + 1);
  }

  lemma {:induction false} LeftGrouped(a: Tokens, x: Tokens, b: Tokens, y: Tokens, c: Tokens)
    ensures (a + (x + b)) + (y + c) == a + x + b + y + c
  {
  }

  lemma {:induction false} RightGrouped(a: Tokens, x: Tokens, b: Tokens, y: Tokens, c: Tokens)
    ensures a + (x + (b + (y + c))) == a + x + b + y + c
  {
  }

  lemma {:induction false} LeftPrints(a: Tree, op1: Op, b: Tree, op2: Op, c: Tree)
    requires Operand(a) && Operand(b) && Operand(c) && !op2.Caret?
    requires OpLevel(op1) >= OpLevel(op2)
    ensures Print(Binary(op2, Binary(op1, a, b), c), 1) == Row(a, op1, b, op2, c)
  {
    OperandPrints(c, OpLevel(op2) + 1);
    InnerPrints(op1, a, b, OpLevel(op2));
    LeftGrouped(Bare(a), [Operator(op1)], Bare(b), [Operator(op2)], Bare(c));
  }

  lemma {:induction false} RightPrints(a: Tree, op1: Op, b: Tree, op2: Op, c: Tree)
    requires Operand(a) && Operand(b) && Operand(c)
    requires OpLevel(op1) < OpLevel(op2) || (op1.Caret? && op2.Caret?)
    ensures Print(Binary(op1, a, Binary(op2, b, c)), 1) == Row(a, op1, b, op2, c)
  {
    OperandPrints(a, if op1.Caret? then 8 else OpLevel(op1));
    InnerPrints(op2, b, c, if op1.Caret? then 7 else OpLevel(op1) + 1);
    RightGrouped(Bare(a), [Operator(op1)], Bare(b), [Operator(op2)], Bare(c));
  }

  lemma {:induction false} OperandCasts(op: Op, a: Tree, b: Tree, n: Names)
    requires CastsOk(a, n) && CastsOk(b, n)
    ensures CastsOk(Binary(op, a, b), n)
  {
  }

  /** The operator further down the list takes the operand between the two. Of two operators of one place the first
      takes
      it, but with `^` the second. */
  lemma {:induction false} TighterTakes(
      t: Tokens, i: nat, n: Names, a: Tree, op1: Op, b: Tree, op2: Op, c: Tree, p: nat, q: nat)
    requires Operand(a) && Operand(b) && Operand(c) && CastsOk(a, n) && CastsOk(b, n) && CastsOk(c, n)
    requires Placed(op1, p) && Placed(op2, q)
    requires Stands(t, i, Row(a, op1, b, op2, c)) && Quiet(t, i + |Row(a, op1, b, op2, c)|, 1)
    ensures p > q || (p == q && p != 5) ==>
      ParseExpression(t, i, n) == Parsed(Binary(op2, Binary(op1, a, b), c), i + |Row(a, op1, b, op2, c)|)
    ensures p < q || (p == q && p == 5) ==>
      ParseExpression(t, i, n) == Parsed(Binary(op1, a, Binary(op2, b, c)), i + |Row(a, op1, b, op2, c)|)
  {
    PlaceLevel(op1, p);
    PlaceLevel(op2, q);
    OperandCasts(op1, a, b, n);
    OperandCasts(op2, b, c, n);
    if p > q || (p == q && p != 5) {
      var e := Binary(op2, Binary(op1, a, b), c);
      OperandCasts(op2, Binary(op1, a, b), c, n);
      LeftPrints(a, op1, b, op2, c);
      PrintParses(t, i, e, n);
    } else {
      var e := Binary(op1, a, Binary(op2, b, c));
      OperandCasts(op1, a, Binary(op2, b, c), n);
      RightPrints(a, op1, b, op2, c);
      PrintParses(t, i, e, n);
    }
  }

  // ----- `not` and casts -----

  /** `not a op b`: `and` and `or` take the negated operand, all others are negated with both of theirs. */
  lemma {:induction false} NotTakes(t: Tokens, i: nat, n: Names, a: Tree, op: Op, b: Tree)
    requires Operand(a) && Operand(b) && CastsOk(a, n) && CastsOk(b, n)
    requires var p := [Not] + (Bare(a) + ([Operator(op)] + Bare(b))); Stands(t, i, p) && Quiet(t, i + |p|, 1)
    ensures var end := i + |[Not] + (Bare(a) + ([Operator(op)] + Bare(b)))|;
      ParseExpression(t, i, n) ==
        Parsed(if op == And || op == Or then Binary(op, NotOf(a), b) else NotOf(Binary(op, a, b)), end)
  {
    var p := [Not] + (Bare(a) + ([Operator(op)] + Bare(b)));
    OperandCasts(op, a, b, n);
    if op == And || op == Or {
      var e := Binary(op, NotOf(a), b);
      OperandPrints(a, 4);
      OperandPrints(b, OpLevel(op) + 1);
      assert Print(NotOf(a), OpLevel(op)) == [Not] + Bare(a);
      assert Print(e, 1) == ([Not] + Bare(a)) + ([Operator(op)] + Bare(b));
      assert Print(e, 1) == p;
      PrintParses(t, i, e, n);
    } else {
      var e := NotOf(Binary(op, a, b));
      InnerPrints(op, a, b, 4);
      assert Print(e, 1) == p;
      PrintParses(t, i, e, n);
    }
  }

  /** `(T) a op b`: every operator takes the operand with its cast. */
  lemma {:induction false} CastTakes(t: Tokens, i: nat, n: Names, type_: Token, a: Tree, op: Op, b: Tree)
    requires Operand(a) && Operand(b) && CastsOk(a, n) && CastsOk(b, n)
    requires type_.TypeWord? || (type_.Ident? && n.alias(type_.name))
    requires var p := ([LParen, type_, RParen] + Bare(a)) + ([Operator(op)] + Bare(b));
      Stands(t, i, p) && Quiet(t, i + |p|, 1)
    ensures var end := i + |([LParen, type_, RParen] + Bare(a)) + ([Operator(op)] + Bare(b))|;
      ParseExpression(t, i, n) == Parsed(Binary(op, Cast(type_, a), b), end)
  {
    var e := Binary(op, Cast(type_, a), b);
    OperandPrints(a, 8);
    OperandPrints(b, if op.Caret? then 7 else OpLevel(op) + 1);
    OperandCasts(op, Cast(type_, a), b, n);
    var level: Level := if op.Caret? then 8 else OpLevel(op);
    assert Print(Cast(type_, a), level) == [LParen, type_, RParen] + Bare(a);
    assert Print(e, 1) == ([LParen, type_, RParen] + Bare(a)) + ([Operator(op)] + Bare(b));
    PrintParses(t, i, e, n);
  }

  /** `not` stands once: behind it comes a comparison. */
  lemma {:induction false} DoubleNotFails(t: Tokens, i: nat, n: Names)
    requires Has(t, i, Not) && Has(t, i + 1, Not)
    ensures ParseExpression(t, i, n) == Bad
  {
    NotFails(t, i + 1, 4, n);
    assert ParseLevel(t, i, 3, n) == Bad;
    assert ParseLevel(t, i, 2, n) == Bad;
  }

  /** A name in parentheses that is no alias is that name. */
  lemma {:induction false} NameInParens(t: Tokens, i: nat, n: Names, name: string)
    requires Stands(t, i, [LParen, Ident(name), RParen]) && !n.alias(name)
    ensures ParsePrimary(t, i, n) == Parsed(Id(name), i + 3)
  {
    var p := [LParen, Ident(name), RParen];
    StandsAt(t, i, p, 0);
    StandsAt(t, i, p, 1);
    StandsAt(t, i, p, 2);
    assert Print(Id(name), 1) == [Ident(name)];
    LevelReadsBack(t, i + 1, 1, n, Id(name), i + 2);
    assert Unseal(0);
  }

  // ----- calls of members -----

  /** `x.m(...)` as it stands in the tokens. */
  function Called(target: Tree, name: string, args: seq<Tree>): Tokens {
    Print(target, 9) + ([Dot, Ident(name), LParen] + (PrintArguments(args) + [RParen]))
  }

  /** What stands behind the target. */
  lemma {:induction false} CalledStands(t: Tokens, i: nat, target: Tree, name: string, args: seq<Tree>, m: nat)
    requires Stands(t, i, Called(target, name, args)) && m == i + |Print(target, 9)|
    ensures Stands(t, i, Print(target, 9)) && Has(t, m, Dot) && Has(t, m + 1, Ident(name)) && Has(t, m + 2, LParen)
    ensures Stands(t, m + 3, PrintArguments(args) + [RParen])
  {
    var head := [Dot, Ident(name), LParen];
    StandsSplit(t, i, Print(target, 9), head + (PrintArguments(args) + [RParen]));
    StandsSplit(t, m, head, PrintArguments(args) + [RParen]);
    StandsAt(t, m, head, 0);
    StandsAt(t, m, head, 1);
    StandsAt(t, m, head, 2);
  }

  lemma {:induction false} ApplyMemberCall(
      t: Tokens, i: nat, n: Names, target: Tree, name: string, args: seq<Tree>, m: nat, call: Tree)
    requires Has(t, i, Dot) && Has(t, i + 1, Ident(name)) && Has(t, i + 2, LParen)
    requires ArgumentsRead(t, i + 3, n, args, m) && Quiet(t, m, 8)
    requires CallOf(Member(target, name), args, n) == Some(call)
    ensures ApplyReads(t, i, target, n, call, m)
  {
    ApplyStops(t, m, n, call);
    assert ApplyReads(t, i + 2, Member(target, name), n, call, m) by {
      assert Unseal(0);
    }
    ApplyMember(t, i, n, target, name, call, m);
  }

  /** A call of a member of a namespace becomes a call of one function of the namespace and the member. A call of a
      member of anything else becomes a call of the method with the target as first argument, named after the member or
      one of the four methods that the runtime has. */
  lemma {:induction false} MemberCallReads(t: Tokens, i: nat, n: Names, target: Tree, name: string, args: seq<Tree>)
    requires CastsOk(target, n) && CastsOkAll(args, n)
    requires Stands(t, i, Called(target, name, args)) && Quiet(t, i + |Called(target, name, args)|, 8)
    ensures var end := i + |Called(target, name, args)|;
      ParseLevel(t, i, 8, n) ==
        if target.Id? && n.namespace(target.name)
        then Parsed(Call("__modulecall_" + target.name + "__" + name, args), end)
        else
          Parsed(Call(if name == "push" then "__array_push" else if name == "pop" then "__array_pop"
                      else if name == "clear" then "__array_clear" else if name == "format" then "__string_format"
                      else "__member_" + name, [target] + args), end)
  {
    var end := i + |Called(target, name, args)|;
    var m := i + |Print(target, 9)|;
    var call := CallOf(Member(target, name), args, n).value;
    CalledStands(t, i, target, name, args, m);
    ArgumentsReadBack(t, m + 3, n, args, end);
    ApplyMemberCall(t, m, n, target, name, args, end, call);
    TargetReadsBack(t, i, n, target, m, call, end);
    assert Unseal(0);
  }

  /** A call of anything but a name or a member is an error. */
  lemma {:induction false} OtherCallsFail(t: Tokens, i: nat, n: Names, e: Tree)
    requires i <= |t| && Has(t, i, LParen) && !e.Id? && !e.Member?
    ensures ApplyPostfix(t, i, e, n) == Bad
  {
  }

  // ----- arguments -----

  lemma {:induction false} CommaStands(t: Tokens, i: nat, args: Tokens)
    requires Stands(t, i, args + [Comma, RParen])
    ensures Stands(t, i, args) && Has(t, i + |args|, Comma) && Has(t, i + |args| + 1, RParen) && Quiet(t, i + |args|, 1)
  {
    StandsSplit(t, i, args, [Comma, RParen]);
    StandsAt(t, i + |args|, [Comma, RParen], 0);
    StandsAt(t, i + |args|, [Comma, RParen], 1);
  }

  lemma {:induction false} ListEndsWithComma(t: Tokens, i: nat, n: Names, before: seq<Tree>, arg: Tree, m: nat)
    requires LevelReads(t, i, 1, n, arg, m) && Has(t, m, Comma) && Has(t, m + 1, RParen)
    ensures ListReads(t, i, before, n, before + [arg], m + 2)
  {
  }

  lemma {:induction false} MoreStands(t: Tokens, i: nat, a: Tokens, rest: Tokens)
    requires Stands(t, i, (a + ([Comma] + rest)) + [Comma, RParen])
    ensures Stands(t, i, a) && Has(t, i + |a|, Comma) && Quiet(t, i + |a|, 1)
    ensures Stands(t, i + |a| + 1, rest + [Comma, RParen])
  {
    assert (a + ([Comma] + rest)) + [Comma, RParen] == a + ([Comma] + (rest + [Comma, RParen]));
    StandsSplit(t, i, a, [Comma] + (rest + [Comma, RParen]));
    StandsSplit(t, i + |a|, [Comma], rest + [Comma, RParen]);
    StandsAt(t, i + |a|, [Comma], 0);
  }

  lemma {:induction false} NoParenFirst(t: Tokens, i: nat, args: seq<Tree>, rest: Tokens)
    requires args != [] && Stands(t, i, PrintArguments(args) + rest)
    ensures !Has(t, i, RParen)
  {
    FirstToken(args[0], 1);
    StandsAt(t, i, PrintArguments(args) + rest, 0);
  }

  lemma {:induction false} CommaListReads(
      t: Tokens, i: nat, n: Names, before: seq<Tree>, args: seq<Tree>, end: nat)
    requires args != [] && CastsOkAll(args, n)
    requires Stands(t, i, PrintArguments(args) + [Comma, RParen]) && end == i + |PrintArguments(args)| + 2
    ensures ListReads(t, i, before, n, before + args, end)
    decreases |args|
  {
    var m := i + |Print(args[0], 1)|;
    if |args| == 1 {
      CommaStands(t, i, Print(args[0], 1));
      LevelReadsBack(t, i, 1, n, args[0], m);
      ListEndsWithComma(t, i, n, before, args[0], m);
      assert args == [args[0]];
    } else {
      MoreStands(t, i, Print(args[0], 1), PrintArguments(args[1..]));
      NoParenFirst(t, m + 1, args[1..], [Comma, RParen]);
      LevelReadsBack(t, i, 1, n, args[0], m);
      CommaListReads(t, m + 1, n, before + [args[0]], args[1..], end);
      Moved(before, args);
      ListMore(t, i, n, before, args[0], m, before + args, end);
    }
  }

  /** A comma behind the last argument changes nothing. */
  lemma {:induction false} LastCommaReads(t: Tokens, i: nat, n: Names, args: seq<Tree>)
    requires args != [] && CastsOkAll(args, n) && Stands(t, i, PrintArguments(args) + [Comma, RParen])
    ensures ParseArguments(t, i, n) == Parsed(args, i + |PrintArguments(args)| + 2)
  {
    var end := i + |PrintArguments(args)| + 2;
    CommaListReads(t, i, n, [], args, end);
    NoParenFirst(t, i, args, [Comma, RParen]);
    assert [] + args == args;
    ArgumentsFromList(t, i, n, args, end);
    assert Unseal(0);
  }

  // ----- words for types -----

  /** A word for a type is an expression only if it names a namespace. */
  lemma {:induction false} TypeWordReads(t: Tokens, i: nat, n: Names, name: string)
    requires Has(t, i, TypeWord(name))
    ensures ParsePrimary(t, i, n) == if n.namespace(name) then Parsed(Id(name), i + 1) else Bad
  {
  }
}
