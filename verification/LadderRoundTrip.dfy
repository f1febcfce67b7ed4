/** Every expression, printed with only the parentheses its levels need, is parsed back. A level reads
    what was printed for it and stops before the first token that continues no expression of the level,
    so each lemma carries that token along. The levels that group to the left are read by their loops:
    `Spine` walks down the left operands and builds the tree on the way back up. A group is told from a
    cast by its second token. */
module LadderRoundTrip {
  import opened Slices
  import opened Ladder

  /** Casts name types. */
  predicate CastsOk(e: Tree, n: Names)
    decreases Size(e)
  {
    match e
    case Binary(_, left, right) => CastsOk(left, n) && CastsOk(right, n)
    case NotOf(child) => CastsOk(child, n)
    case Cast(type_, child) => IsType(n, type_) && CastsOk(child, n)
    case Call(_, args) => CastsOkAll(args, n)
    case Index(target, index) => CastsOk(target, n) && CastsOk(index, n)
    case Member(target, _) => CastsOk(target, n)
    case _ => true
  }

  predicate CastsOkAll(es: seq<Tree>, n: Names)
    decreases SizeAll(es)
  {
    es == [] || (CastsOk(es[0], n) && CastsOkAll(es[1..], n))
  }

  // ----- what the parser reads, sealed -----

  ghost predicate LevelReads(t: Tokens, i: nat, level: nat, n: Names, e: Tree, j: nat) {
    i < j <= |t| && 1 <= level <= 8 && forall z {:trigger Unseal(z)} :: Unseal(z) ==>
      ParseLevel(t, i, level, n) == Parsed(e, j)
  }

  predicate Loops(level: nat) {
    level == 1 || level == 2 || level == 4 || level == 5 || level == 6
  }

  ghost predicate RestReads(t: Tokens, i: nat, level: nat, left: Tree, n: Names, e: Tree, j: nat) {
    i <= j <= |t| && Loops(level) && forall z {:trigger Unseal(z)} :: Unseal(z) ==>
      ParseRest(t, i, level, left, n) == Parsed(e, j)
  }

  ghost predicate PrimaryReads(t: Tokens, i: nat, n: Names, e: Tree, j: nat) {
    i < j <= |t| && forall z {:trigger Unseal(z)} :: Unseal(z) ==> ParsePrimary(t, i, n) == Parsed(e, j)
  }

  ghost predicate ApplyReads(t: Tokens, i: nat, left: Tree, n: Names, e: Tree, j: nat) {
    i <= j <= |t| && forall z {:trigger Unseal(z)} :: Unseal(z) ==> ApplyPostfix(t, i, left, n) == Parsed(e, j)
  }

  ghost predicate ArgumentsRead(t: Tokens, i: nat, n: Names, args: seq<Tree>, j: nat) {
    i < j <= |t| && forall z {:trigger Unseal(z)} :: Unseal(z) ==> ParseArguments(t, i, n) == Parsed(args, j)
  }

  ghost predicate ListReads(t: Tokens, i: nat, before: seq<Tree>, n: Names, args: seq<Tree>, j: nat) {
    i < j <= |t| && forall z {:trigger Unseal(z)} :: Unseal(z) ==> ParseArgumentList(t, i, before, n) == Parsed(args, j)
  }

  /** Nothing at `j` continues an expression of the level. */
  ghost predicate Quiet(t: Tokens, j: nat, level: nat) {
    j < |t| ==>
      t[j] != LParen && t[j] != LBracket && t[j] != Dot && (t[j].Operator? ==> OpLevel(t[j].op) < level)
  }

  // ----- one step of the parser -----

  lemma {:induction false} LevelStep(t: Tokens, i: nat, level: nat, n: Names, left: Tree, m: nat, e: Tree, j: nat)
    requires Loops(level) && LevelReads(t, i, level + 1, n, left, m) && RestReads(t, m, level, left, n, e, j)
    ensures LevelReads(t, i, level, n, e, j)
  {
    assert Unseal(0);
  }

  lemma {:induction false} RestStep(t: Tokens, i: nat, level: nat, n: Names, op: Op, left: Tree, right: Tree, m: nat,
        e: Tree, j: nat)
    requires Loops(level) && Has(t, i, Operator(op)) && OpLevel(op) == level
      && LevelReads(t, i + 1, level + 1, n, right, m)
    requires RestReads(t, m, level, Binary(op, left, right), n, e, j)
    ensures RestReads(t, i, level, left, n, e, j)
  {
  }

  lemma {:induction false} RestStops(t: Tokens, i: nat, level: nat, n: Names, left: Tree)
    requires i <= |t| && Loops(level) && Quiet(t, i, level)
    ensures RestReads(t, i, level, left, n, left, i)
  {
  }

  lemma {:induction false} NotStep(t: Tokens, i: nat, n: Names, child: Tree, j: nat)
    requires Has(t, i, Not) && LevelReads(t, i + 1, 4, n, child, j)
    ensures LevelReads(t, i, 3, n, NotOf(child), j)
  {
  }

  lemma {:induction false} NotSkipped(t: Tokens, i: nat, n: Names, e: Tree, j: nat)
    requires !Has(t, i, Not) && LevelReads(t, i, 4, n, e, j)
    ensures LevelReads(t, i, 3, n, e, j)
  {
  }

  lemma {:induction false} PowerStep(t: Tokens, i: nat, n: Names, base: Tree, m: nat, exponent: Tree, j: nat)
    requires LevelReads(t, i, 8, n, base, m) && Has(t, m, Operator(Caret)) && LevelReads(t, m + 1, 7, n, exponent, j)
    ensures LevelReads(t, i, 7, n, Binary(Caret, base, exponent), j)
  {
  }

  lemma {:induction false} PowerStops(t: Tokens, i: nat, n: Names, e: Tree, j: nat)
    requires LevelReads(t, i, 8, n, e, j) && Quiet(t, j, 7)
    ensures LevelReads(t, i, 7, n, e, j)
  {
  }

  lemma {:induction false} PostfixStep(t: Tokens, i: nat, n: Names, first: Tree, m: nat, e: Tree, j: nat)
    requires PrimaryReads(t, i, n, first, m) && ApplyReads(t, m, first, n, e, j)
    ensures LevelReads(t, i, 8, n, e, j)
  {
  }

  lemma {:induction false} ApplyStops(t: Tokens, i: nat, n: Names, e: Tree)
    requires i <= |t| && Quiet(t, i, 8)
    ensures ApplyReads(t, i, e, n, e, i)
  {
  }

  lemma {:induction false} ApplyCall(t: Tokens, i: nat, n: Names, name: string, args: seq<Tree>, m: nat, e: Tree,
        j: nat)
    requires Has(t, i, LParen) && ArgumentsRead(t, i + 1, n, args, m) && ApplyReads(t, m, Call(name, args), n, e, j)
    ensures ApplyReads(t, i, Id(name), n, e, j)
  {
  }

  lemma {:induction false} ApplyIndex(t: Tokens, i: nat, n: Names, target: Tree, index: Tree, m: nat, e: Tree, j: nat)
    requires Has(t, i, LBracket) && LevelReads(t, i + 1, 1, n, index, m) && Has(t, m, RBracket)
    requires ApplyReads(t, m + 1, Index(target, index), n, e, j)
    ensures ApplyReads(t, i, target, n, e, j)
  {
  }

  lemma {:induction false} ApplyMember(t: Tokens, i: nat, n: Names, target: Tree, name: string, e: Tree, j: nat)
    requires Has(t, i, Dot) && Has(t, i + 1, Ident(name)) && ApplyReads(t, i + 2, Member(target, name), n, e, j)
    ensures ApplyReads(t, i, target, n, e, j)
  {
  }

  lemma {:induction false} PrimaryGroup(t: Tokens, i: nat, n: Names, e: Tree, j: nat)
    requires Has(t, i, LParen) && !StartsCast(t, i, n) && LevelReads(t, i + 1, 1, n, e, j) && Has(t, j, RParen)
    ensures PrimaryReads(t, i, n, e, j + 1)
  {
  }

  lemma {:induction false} PrimaryCast(t: Tokens, i: nat, n: Names, type_: Token, child: Tree, j: nat)
    requires Has(t, i, LParen) && Has(t, i + 1, type_) && Has(t, i + 2, RParen) && IsType(n, type_)
    requires LevelReads(t, i + 3, 8, n, child, j)
    ensures PrimaryReads(t, i, n, Cast(type_, child), j)
  {
  }

  lemma {:induction false} ListMore(t: Tokens, i: nat, n: Names, before: seq<Tree>, arg: Tree, m: nat, args: seq<Tree>,
        j: nat)
    requires LevelReads(t, i, 1, n, arg, m) && Has(t, m, Comma) && !Has(t, m + 1, RParen)
    requires ListReads(t, m + 1, before + [arg], n, args, j)
    ensures ListReads(t, i, before, n, args, j)
  {
  }

  lemma {:induction false} ListEnds(t: Tokens, i: nat, n: Names, before: seq<Tree>, arg: Tree, m: nat)
    requires LevelReads(t, i, 1, n, arg, m) && Has(t, m, RParen)
    ensures ListReads(t, i, before, n, before + [arg], m + 1)
  {
  }

  // ----- first tokens -----

  /** No printed expression starts with a closing parenthesis, and none at comparison level or below
      starts with `not`. */
  lemma {:induction false} FirstToken(e: Tree, level: Level)
    ensures var p := Print(e, level); p != [] && p[0] != RParen && (level >= 4 ==> p[0] != Not)
    decreases Size(e)
  {
    if Prec(e) >= level {
      match e
      case Binary(op, left, right) => FirstToken(left, if op.Caret? then 8 else OpLevel(op));
      case Index(target, _) => FirstToken(target, 9);
      case Member(target, _) => FirstToken(target, 9);
      case _ =>
    }
  }

  /** Whatever is not a single token has something other than `)` as its second token after a name. */
  lemma {:induction false} SecondToken(e: Tree, level: Level)
    ensures var p := Print(e, level); |p| == 1 || (|p| >= 2 && (p[0] != LParen ==> p[1] != RParen))
    decreases Size(e)
  {
    if Prec(e) >= level {
      match e
      case Binary(op, left, right) => SecondToken(left, if op.Caret? then 8 else OpLevel(op));
      case NotOf(child) => FirstToken(child, 4);
      case Index(target, _) => SecondToken(target, 9);
      case Member(target, _) => SecondToken(target, 9);
      case _ =>
    } else {
      FirstToken(e, 1);
    }
  }

  /** The text of anything but an atom has more than one token. */
  lemma {:induction false} BareLong(e: Tree)
    requires Prec(e) < 9
    ensures |Bare(e)| >= 2
  {
    match e
    case Binary(op, left, right) => FirstToken(left, if op.Caret? then 8 else OpLevel(op));
    case NotOf(child) => FirstToken(child, 4);
    case Cast(_, _) =>
  }

  /** A parenthesised expression is not taken for a cast. */
  lemma {:induction false} GroupIsNoCast(t: Tokens, i: nat, e: Tree, n: Names)
    requires Prec(e) < 9 && Stands(t, i, [LParen] + (Bare(e) + [RParen]))
    ensures Has(t, i, LParen) && !StartsCast(t, i, n)
  {
    StandsSplit(t, i, [LParen], Bare(e) + [RParen]);
    StandsAt(t, i, [LParen], 0);
    StandsSplit(t, i + 1, Bare(e), [RParen]);
    BareLong(e);
    SecondToken(e, 1);
    StandsAt(t, i + 1, Bare(e), 0);
    StandsAt(t, i + 1, Bare(e), 1);
  }

  // ----- reading printed text -----

  /** A printed binary expression, its operator and its operands, where they stand. */
  lemma {:induction false} BinaryStands(t: Tokens, i: nat, a: Tokens, op: Op, b: Tokens)
    requires Stands(t, i, a + ([Operator(op)] + b))
    ensures Stands(t, i, a) && Has(t, i + |a|, Operator(op)) && Stands(t, i + |a| + 1, b)
  {
    StandsSplit(t, i, a, [Operator(op)] + b);
    StandsSplit(t, i + |a|, [Operator(op)], b);
    StandsAt(t, i + |a|, [Operator(op)], 0);
  }

  function Mode(e: Tree, level: nat): nat {
    if Prec(e) < level then 1 else 0
  }

  /** An expression printed at a looping level, and then the rest of that level. */
  lemma {:induction false} Spine(t: Tokens, i: nat, level: nat, n: Names, e: Tree, end: nat, x: Tree, j: nat)
    requires Loops(level) && CastsOk(e, n) && Stands(t, i, Print(e, level)) && end == i + |Print(e, level)|
    requires Quiet(t, end, level + 1) && RestReads(t, end, level, e, n, x, j)
    ensures LevelReads(t, i, level, n, x, j)
    decreases Size(e), Mode(e, level), 20 - level, 0
  {
    if e.Binary? && OpLevel(e.op) == level {
      var a, b := Print(e.left, level), Print(e.right, level + 1);
      BinaryStands(t, i, a, e.op, b);
      var m := i + |a|;
      LevelReadsBack(t, m + 1, level + 1, n, e.right, end);
      RestStep(t, m, level, n, e.op, e.left, e.right, end, x, j);
      Spine(t, i, level, n, e.left, m, x, j);
    } else {
      LevelReadsBack(t, i, level + 1, n, e, end);
      LevelStep(t, i, level, n, e, end, x, j);
    }
  }

  /** A printed expression is read back at the level it was printed for. */
  lemma {:induction false} LevelReadsBack(t: Tokens, i: nat, level: nat, n: Names, e: Tree, end: nat)
    requires 1 <= level <= 8 && CastsOk(e, n) && Stands(t, i, Print(e, level)) && end == i + |Print(e, level)|
    requires Quiet(t, end, level)
    ensures LevelReads(t, i, level, n, e, end)
    decreases Size(e), Mode(e, level), 20 - level, 1
  {
    if Loops(level) {
      RestStops(t, end, level, n, e);
      Spine(t, i, level, n, e, end, e, end);
    } else if level == 3 {
      NotReadsBack(t, i, n, e, end);
    } else if level == 7 {
      PowerReadsBack(t, i, n, e, end);
    } else {
      PostfixReadsBack(t, i, n, e, end);
    }
  }

  lemma {:induction false} NotReadsBack(t: Tokens, i: nat, n: Names, e: Tree, end: nat)
    requires CastsOk(e, n) && Stands(t, i, Print(e, 3)) && end == i + |Print(e, 3)| && Quiet(t, end, 3)
    ensures LevelReads(t, i, 3, n, e, end)
    decreases Size(e), Mode(e, 3), 17, 0
  {
    if e.NotOf? {
      StandsSplit(t, i, [Not], Print(e.child, 4));
      StandsAt(t, i, [Not], 0);
      LevelReadsBack(t, i + 1, 4, n, e.child, end);
      NotStep(t, i, n, e.child, end);
    } else {
      FirstToken(e, 4);
      StandsAt(t, i, Print(e, 4), 0);
      LevelReadsBack(t, i, 4, n, e, end);
      NotSkipped(t, i, n, e, end);
    }
  }

  lemma {:induction false} PowerReadsBack(t: Tokens, i: nat, n: Names, e: Tree, end: nat)
    requires CastsOk(e, n) && Stands(t, i, Print(e, 7)) && end == i + |Print(e, 7)| && Quiet(t, end, 7)
    ensures LevelReads(t, i, 7, n, e, end)
    decreases Size(e), Mode(e, 7), 13, 0
  {
    if e.Binary? && e.op.Caret? {
      var a, b := Print(e.left, 8), Print(e.right, 7);
      BinaryStands(t, i, a, Caret, b);
      var m := i + |a|;
      LevelReadsBack(t, i, 8, n, e.left, m);
      LevelReadsBack(t, m + 1, 7, n, e.right, end);
      PowerStep(t, i, n, e.left, m, e.right, end);
    } else {
      LevelReadsBack(t, i, 8, n, e, end);
      PowerStops(t, i, n, e, end);
    }
  }

  lemma {:induction false} PostfixReadsBack(t: Tokens, i: nat, n: Names, e: Tree, end: nat)
    requires CastsOk(e, n) && Stands(t, i, Print(e, 8)) && end == i + |Print(e, 8)| && Quiet(t, end, 8)
    ensures LevelReads(t, i, 8, n, e, end)
    decreases Size(e), Mode(e, 8), 12, 0
  {
    ApplyStops(t, end, n, e);
    if e.Cast? {
      var head := [LParen, e.type_, RParen];
      StandsSplit(t, i, head, Print(e.child, 8));
      StandsAt(t, i, head, 0);
      StandsAt(t, i, head, 1);
      StandsAt(t, i, head, 2);
      LevelReadsBack(t, i + 3, 8, n, e.child, end);
      PrimaryCast(t, i, n, e.type_, e.child, end);
      PostfixStep(t, i, n, e, end, e, end);
    } else {
      TargetReadsBack(t, i, n, e, end, e, end);
    }
  }

  /** A printed target of a postfix, and then the postfixes after it. */
  lemma {:induction false} TargetReadsBack(t: Tokens, i: nat, n: Names, e: Tree, end: nat, x: Tree, j: nat)
    requires CastsOk(e, n) && Stands(t, i, Print(e, 9)) && end == i + |Print(e, 9)| && ApplyReads(t, end, e, n, x, j)
    ensures LevelReads(t, i, 8, n, x, j)
    decreases Size(e), Mode(e, 9), 11, 0
  {
    if Prec(e) < 9 {
      GroupReadsBack(t, i, n, e, end);
      PostfixStep(t, i, n, e, end, x, j);
    } else if e.Call? {
      CallReadsBack(t, i, n, e.callee, e.args, end, x, j);
    } else if e.Index? {
      IndexReadsBack(t, i, n, e.target, e.index, end, x, j);
    } else if e.Member? {
      MemberReadsBack(t, i, n, e.target, e.name, end, x, j);
    } else {
      AtomReadsBack(t, i, n, e);
      PostfixStep(t, i, n, e, end, x, j);
    }
  }

  lemma {:induction false} AtomReadsBack(t: Tokens, i: nat, n: Names, e: Tree)
    requires e.Id? || e.Num? || e.Text? || e.Bool?
    requires Stands(t, i, Bare(e))
    ensures |Bare(e)| == 1 && PrimaryReads(t, i, n, e, i + 1)
  {
    StandsAt(t, i, Bare(e), 0);
  }

  lemma {:induction false} MemberReadsBack(t: Tokens, i: nat, n: Names, target: Tree, name: string, end: nat, x: Tree,
        j: nat)
    requires CastsOk(target, n)
    requires Stands(t, i, Bare(Member(target, name))) && end == i + |Bare(Member(target, name))|
    requires ApplyReads(t, end, Member(target, name), n, x, j)
    ensures LevelReads(t, i, 8, n, x, j)
    decreases Size(target), 2, 0, 0
  {
    var a, b := Print(target, 9), [Dot, Ident(name)];
    StandsSplit(t, i, a, b);
    var m := i + |a|;
    StandsAt(t, m, b, 0);
    StandsAt(t, m, b, 1);
    ApplyMember(t, m, n, target, name, x, j);
    TargetReadsBack(t, i, n, target, m, x, j);
  }

  lemma {:induction false} GroupReadsBack(t: Tokens, i: nat, n: Names, e: Tree, end: nat)
    requires Prec(e) < 9 && CastsOk(e, n) && Stands(t, i, Print(e, 9)) && end == i + |Print(e, 9)|
    ensures PrimaryReads(t, i, n, e, end)
    decreases Size(e), 1, 10, 0
  {
    var p := Bare(e);
    GroupIsNoCast(t, i, e, n);
    StandsSplit(t, i, [LParen], p + [RParen]);
    StandsSplit(t, i + 1, p, [RParen]);
    StandsAt(t, end - 1, [RParen], 0);
    assert Print(e, 1) == p;
    LevelReadsBack(t, i + 1, 1, n, e, end - 1);
    PrimaryGroup(t, i, n, e, end - 1);
  }

  lemma {:induction false} IndexReadsBack(t: Tokens, i: nat, n: Names, target: Tree, index: Tree, end: nat, x: Tree,
        j: nat)
    requires CastsOk(target, n) && CastsOk(index, n)
    requires Stands(t, i, Bare(Index(target, index))) && end == i + |Bare(Index(target, index))|
    requires ApplyReads(t, end, Index(target, index), n, x, j)
    ensures LevelReads(t, i, 8, n, x, j)
    decreases Size(target) + Size(index), 2, 0, 0
  {
    var a, b := Print(target, 9), Print(index, 1);
    StandsSplit(t, i, a, [LBracket] + (b + [RBracket]));
    var m := i + |a|;
    StandsSplit(t, m, [LBracket], b + [RBracket]);
    StandsAt(t, m, [LBracket], 0);
    StandsSplit(t, m + 1, b, [RBracket]);
    StandsAt(t, end - 1, [RBracket], 0);
    LevelReadsBack(t, m + 1, 1, n, index, end - 1);
    ApplyIndex(t, m, n, target, index, end - 1, x, j);
    TargetReadsBack(t, i, n, target, m, x, j);
  }

  lemma {:induction false} CallReadsBack(t: Tokens, i: nat, n: Names, callee: string, args: seq<Tree>, end: nat,
        x: Tree, j: nat)
    requires CastsOkAll(args, n)
    requires Stands(t, i, Bare(Call(callee, args))) && end == i + |Bare(Call(callee, args))|
    requires ApplyReads(t, end, Call(callee, args), n, x, j)
    ensures LevelReads(t, i, 8, n, x, j)
    decreases SizeAll(args), 3, 0, 0
  {
    var head := [Ident(callee), LParen];
    StandsSplit(t, i, head, PrintArguments(args) + [RParen]);
    StandsAt(t, i, head, 0);
    StandsAt(t, i, head, 1);
    ArgumentsReadBack(t, i + 2, n, args, end);
    ApplyCall(t, i + 1, n, callee, args, end, x, j);
    assert PrimaryReads(t, i, n, Id(callee), i + 1);
    PostfixStep(t, i, n, Id(callee), i + 1, x, j);
  }

  lemma {:induction false} ArgumentsReadBack(t: Tokens, i: nat, n: Names, args: seq<Tree>, end: nat)
    requires CastsOkAll(args, n)
    requires Stands(t, i, PrintArguments(args) + [RParen]) && end == i + |PrintArguments(args)| + 1
    ensures ArgumentsRead(t, i, n, args, end)
    decreases SizeAll(args), 2, 0, 0
  {
    if args == [] {
      StandsAt(t, i, PrintArguments(args) + [RParen], 0);
    } else {
      ListReadsBack(t, i, n, [], args, end);
      ArgumentsFirst(t, i, args);
      assert [] + args == args;
      ArgumentsFromList(t, i, n, args, end);
    }
  }

  lemma {:induction false} ArgumentsFromList(t: Tokens, i: nat, n: Names, args: seq<Tree>, end: nat)
    requires !Has(t, i, RParen) && ListReads(t, i, [], n, args, end)
    ensures ArgumentsRead(t, i, n, args, end)
  {
  }

  lemma {:induction false} ListReadsBack(t: Tokens, i: nat, n: Names, before: seq<Tree>, args: seq<Tree>, end: nat)
    requires args != [] && CastsOkAll(args, n)
    requires Stands(t, i, PrintArguments(args) + [RParen]) && end == i + |PrintArguments(args)| + 1
    ensures ListReads(t, i, before, n, before + args, end)
    decreases SizeAll(args), 1, 0, 0
  {
    var m := i + |Print(args[0], 1)|;
    if |args| == 1 {
      LastStands(t, i, Print(args[0], 1));
      LevelReadsBack(t, i, 1, n, args[0], m);
      ListEnds(t, i, n, before, args[0], m);
      assert args == [args[0]];
    } else {
      ListStands(t, i, Print(args[0], 1), PrintArguments(args[1..]));
      ArgumentsFirst(t, m + 1, args[1..]);
      LevelReadsBack(t, i, 1, n, args[0], m);
      ListReadsBack(t, m + 1, n, before + [args[0]], args[1..], end);
      Moved(before, args);
      ListMore(t, i, n, before, args[0], m, before + args, end);
    }
  }

  lemma {:induction false} Moved(before: seq<Tree>, args: seq<Tree>)
    requires args != []
    ensures before + [args[0]] + args[1..] == before + args
  {
  }

  lemma {:induction false} ArgumentsFirst(t: Tokens, i: nat, args: seq<Tree>)
    requires args != [] && Stands(t, i, PrintArguments(args) + [RParen])
    ensures !Has(t, i, RParen)
  {
    FirstToken(args[0], 1);
    StandsAt(t, i, PrintArguments(args) + [RParen], 0);
  }

  lemma {:induction false} LastStands(t: Tokens, i: nat, a: Tokens)
    requires Stands(t, i, a + [RParen])
    ensures Stands(t, i, a) && Has(t, i + |a|, RParen) && Quiet(t, i + |a|, 1)
  {
    StandsSplit(t, i, a, [RParen]);
    StandsAt(t, i + |a|, [RParen], 0);
  }

  lemma {:induction false} ListStands(t: Tokens, i: nat, a: Tokens, rest: Tokens)
    requires Stands(t, i, (a + ([Comma] + rest)) + [RParen])
    ensures Stands(t, i, a) && Has(t, i + |a|, Comma) && Quiet(t, i + |a|, 1) && Stands(t, i + |a| + 1, rest + [RParen])
  {
    assert (a + ([Comma] + rest)) + [RParen] == a + ([Comma] + (rest + [RParen]));
    StandsSplit(t, i, a, [Comma] + (rest + [RParen]));
    StandsSplit(t, i + |a|, [Comma], rest + [RParen]);
    StandsAt(t, i + |a|, [Comma], 0);
  }

  // ----- main result -----

  /** Parsing a printed expression gives its tree and reads exactly its tokens, whatever comes after
      them that continues no expression. */
  lemma {:induction false} PrintParses(t: Tokens, i: nat, e: Tree, n: Names)
    requires CastsOk(e, n) && Stands(t, i, Print(e, 1)) && Quiet(t, i + |Print(e, 1)|, 1)
    ensures ParseExpression(t, i, n) == Parsed(e, i + |Print(e, 1)|)
  {
    LevelReadsBack(t, i, 1, n, e, i + |Print(e, 1)|);
    assert Unseal(0);
  }

  // ----- the parentheses are needed -----

  /** At the levels below `not` no expression starts with `not`. */
  lemma {:induction false} NotFails(t: Tokens, i: nat, level: nat, n: Names)
    requires 4 <= level <= 8 && Has(t, i, Not)
    ensures ParseLevel(t, i, level, n).Bad?
    decreases 8 - level
  {
    if level < 7 {
      NotFails(t, i, level + 1, n);
    } else {
      assert ParsePostfix(t, i, n).Bad?;
    }
  }

  /** Where a higher level is expected, an expression without parentheses is not read as a whole. */
  lemma {:induction false} ParensNeeded(t: Tokens, i: nat, level: nat, n: Names, e: Tree)
    requires Prec(e) < level <= 8 && CastsOk(e, n) && Stands(t, i, Bare(e))
    ensures var r := ParseLevel(t, i, level, n); r.Parsed? ==> r.next < i + |Bare(e)|
    decreases Size(e)
  {
    if e.NotOf? {
      StandsAt(t, i, Bare(e), 0);
      NotFails(t, i, level, n);
    } else {
      var own := if e.op.Caret? then 8 else OpLevel(e.op);
      var a := Print(e.left, own);
      BinaryStands(t, i, a, e.op, Print(e.right, if e.op.Caret? then 7 else OpLevel(e.op) + 1));
      if own <= Prec(e.left) < level {
        ParensNeeded(t, i, level, n, e.left);
      } else {
        LevelReadsBack(t, i, level, n, e.left, i + |a|);
        assert Unseal(0);
      }
    }
  }
}
