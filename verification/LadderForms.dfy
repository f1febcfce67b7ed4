/** Whatever the expression parser accepts has been written by its grammar, and becomes what was written. */
module LadderForms {
  import opened Ladder

  // ----- expressions as they are written -----

  datatype Form =
    | Leaf(token: Token)
    | Group(inner: Form)
    | CastForm(type_: Token, child: Form)
    | CallForm(callee: Form, args: seq<Form>, lastComma: bool)
    | DotForm(target: Form, name: string)
    | IndexForm(target: Form, index: Form)
    | NotForm(child: Form)
    | OpForm(op: Op, left: Form, right: Form)

  function FormSize(f: Form): nat
    decreases f
  {
    match f
    case Leaf(_) => 1
    case Group(inner) => 1 + FormSize(inner)
    case CastForm(_, child) => 1 + FormSize(child)
    case CallForm(callee, args, _) => 1 + FormSize(callee) + FormsSize(args)
    case DotForm(target, _) => 1 + FormSize(target)
    case IndexForm(target, index) => 1 + FormSize(target) + FormSize(index)
    case NotForm(child) => 1 + FormSize(child)
    case OpForm(_, left, right) => 1 + FormSize(left) + FormSize(right)
  }

  function FormsSize(fs: seq<Form>): nat
    decreases fs
  {
    if fs == [] then 0 else 1 + FormSize(fs[0]) + FormsSize(fs[1..])
  }

  function Write(f: Form): Tokens
    decreases FormSize(f)
  {
    match f
    case Leaf(token) => [token]
    case Group(inner) => [LParen] + (Write(inner) + [RParen])
    case CastForm(type_, child) => [LParen, type_, RParen] + Write(child)
    case CallForm(callee, args, lastComma) =>
      Write(callee) + ([LParen] + (WriteArgs(args) + (if lastComma then [Comma, RParen] else [RParen])))
    case DotForm(target, name) => Write(target) + [Dot, Ident(name)]
    case IndexForm(target, index) => Write(target) + ([LBracket] + (Write(index) + [RBracket]))
    case NotForm(child) => [Not] + Write(child)
    case OpForm(op, left, right) => Write(left) + ([Operator(op)] + Write(right))
  }

  function WriteArgs(fs: seq<Form>): Tokens
    decreases FormsSize(fs)
  {
    if fs == [] then [] else if |fs| == 1 then Write(fs[0]) else Write(fs[0]) + ([Comma] + WriteArgs(fs[1..]))
  }

  /** The tree of what is written; parentheses leave no trace. */
  function TreeOf(f: Form, n: Names): Tree
    decreases FormSize(f)
  {
    match f
    case Leaf(Number(text)) => Num(text)
    case Leaf(Str(text)) => Text(text)
    case Leaf(True) => Bool(true)
    case Leaf(False) => Bool(false)
    case Leaf(TypeWord(name)) => Id(name)
    case Leaf(Ident(name)) => Id(name)
    case Leaf(_) => Id("")
    case Group(inner) => TreeOf(inner, n)
    case CastForm(type_, child) => Cast(type_, TreeOf(child, n))
    case CallForm(callee, args, _) =>
      (match CallOf(TreeOf(callee, n), TreesOf(args, n), n)
       case Some(call) => call
       case None => Id(""))
    case DotForm(target, name) => Member(TreeOf(target, n), name)
    case IndexForm(target, index) => Index(TreeOf(target, n), TreeOf(index, n))
    case NotForm(child) => NotOf(TreeOf(child, n))
    case OpForm(op, left, right) => Binary(op, TreeOf(left, n), TreeOf(right, n))
  }

  function TreesOf(fs: seq<Form>, n: Names): (r: seq<Tree>)
    ensures |r| == |fs|
    decreases FormsSize(fs)
  {
    if fs == [] then [] else [TreeOf(fs[0], n)] + TreesOf(fs[1..], n)
  }

  predicate LeafOk(token: Token, n: Names) {
    match token
    case Ident(_) => true
    case Number(_) => true
    case Str(_) => true
    case True => true
    case False => true
    case TypeWord(name) => n.namespace(name)
    case _ => false
  }

  /** The grammar: the form may stand where a `level` is expected. A group of one type is a cast. */
  predicate FormOk(f: Form, level: nat, n: Names)
    decreases FormSize(f)
  {
    match f
    case Leaf(token) => LeafOk(token, n)
    case Group(inner) => FormOk(inner, 1, n) && !(inner.Leaf? && IsType(n, inner.token))
    case CastForm(type_, child) => level <= 8 && IsType(n, type_) && FormOk(child, 8, n)
    case CallForm(callee, args, lastComma) =>
      && FormOk(callee, 9, n) && FormsOk(args, n) && (lastComma ==> args != [])
      && CallOf(TreeOf(callee, n), TreesOf(args, n), n).Some?
    case DotForm(target, _) => FormOk(target, 9, n)
    case IndexForm(target, index) => FormOk(target, 9, n) && FormOk(index, 1, n)
    case NotForm(child) => level <= 3 && FormOk(child, 4, n)
    case OpForm(op, left, right) =>
      if op.Caret? then level <= 7 && FormOk(left, 8, n) && FormOk(right, 7, n)
      else level <= OpLevel(op) && FormOk(left, OpLevel(op), n) && FormOk(right, OpLevel(op) + 1, n)
  }

  predicate FormsOk(fs: seq<Form>, n: Names)
    decreases FormsSize(fs)
  {
    fs == [] || (FormOk(fs[0], 1, n) && FormsOk(fs[1..], n))
  }

  lemma {:induction false} LowerLevel(f: Form, level: nat, lower: nat, n: Names)
    requires FormOk(f, level, n) && lower <= level
    ensures FormOk(f, lower, n)
  {
  }

  // ----- what is read -----

  /** The tokens from `i` to `j` are the form, which may stand at this level and is this tree. */
  ghost predicate Reads(t: Tokens, i: nat, j: nat, f: Form, level: nat, n: Names, e: Tree) {
    i <= j <= |t| && FormOk(f, level, n) && t[i..j] == Write(f) && TreeOf(f, n) == e
  }

  lemma {:induction false} Joined(t: Tokens, i: nat, k: nat, j: nat, a: Tokens, b: Tokens)
    requires i <= k <= j <= |t| && t[i..k] == a && t[k..j] == b
    ensures t[i..j] == a + b
  {
  }

  lemma {:induction false} OneToken(t: Tokens, i: nat)
    requires i < |t|
    ensures t[i..i + 1] == [t[i]]
  {
  }

  lemma {:induction false} OpReads(
      t: Tokens, i: nat, k: nat, j: nat, left: Form, right: Form, level: nat, n: Names, a: Tree, b: Tree)
    requires k < |t| && t[k].Operator? && OpLevel(t[k].op) == level && level <= 7
    requires Reads(t, i, k, left, if level == 7 then 8 else level, n, a)
    requires Reads(t, k + 1, j, right, if level == 7 then 7 else level + 1, n, b)
    ensures Reads(t, i, j, OpForm(t[k].op, left, right), level, n, Binary(t[k].op, a, b))
  {
    OneToken(t, k);
    Joined(t, k, k + 1, j, [t[k]], Write(right));
    Joined(t, i, k, j, Write(left), [t[k]] + Write(right));
  }

  lemma {:induction false} NotReads(t: Tokens, i: nat, j: nat, child: Form, n: Names, a: Tree)
    requires Has(t, i, Not) && Reads(t, i + 1, j, child, 4, n, a)
    ensures Reads(t, i, j, NotForm(child), 3, n, NotOf(a))
  {
    OneToken(t, i);
    Joined(t, i, i + 1, j, [Not], Write(child));
  }

  /** The level was read by its grammar. */
  lemma {:induction false} ReadLevel(t: Tokens, i: nat, level: nat, n: Names) returns (f: Form)
    requires i <= |t| && 1 <= level <= 8 && ParseLevel(t, i, level, n).Parsed?
    ensures var r := ParseLevel(t, i, level, n); Reads(t, i, r.next, f, level, n, r.tree)
    decreases |t| - i, 20 - level
  {
    if level == 8 {
      f := ReadPostfix(t, i, n);
    } else if level == 7 {
      f := ReadPower(t, i, n);
    } else if level == 3 {
      if Has(t, i, Not) {
        var child := ReadLevel(t, i + 1, 4, n);
        NotReads(t, i, ParseLevel(t, i + 1, 4, n).next, child, n, ParseLevel(t, i + 1, 4, n).tree);
        f := NotForm(child);
      } else {
        f := ReadLevel(t, i, 4, n);
        LowerLevel(f, 4, 3, n);
      }
    } else {
      var first := ParseLevel(t, i, level + 1, n);
      var left := ReadLevel(t, i, level + 1, n);
      LowerLevel(left, level + 1, level, n);
      f := ReadRest(t, i, first.next, level, left, first.tree, n);
    }
  }

  lemma {:induction false} ReadPower(t: Tokens, i: nat, n: Names) returns (f: Form)
    requires i <= |t| && ParseLevel(t, i, 7, n).Parsed?
    ensures var r := ParseLevel(t, i, 7, n); Reads(t, i, r.next, f, 7, n, r.tree)
    decreases |t| - i, 12
  {
    var base := ParsePostfix(t, i, n);
    f := ReadPostfix(t, i, n);
    if HasOp(t, base.next, 7) {
      var exponent := ParseLevel(t, base.next + 1, 7, n);
      var right := ReadLevel(t, base.next + 1, 7, n);
      OpReads(t, i, base.next, exponent.next, f, right, 7, n, base.tree, exponent.tree);
      f := OpForm(t[base.next].op, f, right);
    } else {
      LowerLevel(f, 8, 7, n);
    }
  }

  lemma {:induction false} ReadRest(t: Tokens, start: nat, i: nat, level: nat, left: Form, a: Tree, n: Names)
      returns (f: Form)
    requires 1 <= level <= 6 && level != 3 && Reads(t, start, i, left, level, n, a)
    requires ParseRest(t, i, level, a, n).Parsed?
    ensures var r := ParseRest(t, i, level, a, n); Reads(t, start, r.next, f, level, n, r.tree)
    decreases |t| - i, 20 - level
  {
    if !HasOp(t, i, level) {
      f := left;
    } else {
      var r := ParseLevel(t, i + 1, level + 1, n);
      var right := ReadLevel(t, i + 1, level + 1, n);
      OpReads(t, start, i, r.next, left, right, level, n, a, r.tree);
      f := ReadRest(t, start, r.next, level, OpForm(t[i].op, left, right), Binary(t[i].op, a, r.tree), n);
    }
  }

  // ----- postfixes -----

  lemma {:induction false} NoPostfixLeft(t: Tokens, i: nat, e: Tree, n: Names)
    requires i <= |t| && ApplyPostfix(t, i, e, n).Parsed?
    ensures var j := ApplyPostfix(t, i, e, n).next; !Has(t, j, LParen) && !Has(t, j, Dot) && !Has(t, j, LBracket)
    decreases |t| - i
  {
    if Has(t, i, LParen) {
      var args := ParseArguments(t, i + 1, n);
      NoPostfixLeft(t, args.next, CallOf(e, args.tree, n).value, n);
    } else if Has(t, i, Dot) {
      NoPostfixLeft(t, i + 2, Member(e, t[i + 1].name), n);
    } else if Has(t, i, LBracket) {
      var index := ParseLevel(t, i + 1, 1, n);
      NoPostfixLeft(t, index.next + 1, Index(e, index.tree), n);
    }
  }

  lemma {:induction false} ReadPostfix(t: Tokens, i: nat, n: Names) returns (f: Form)
    requires i <= |t| && ParsePostfix(t, i, n).Parsed?
    ensures var r := ParsePostfix(t, i, n); Reads(t, i, r.next, f, 8, n, r.tree)
    decreases |t| - i, 11
  {
    var first := ParsePrimary(t, i, n);
    if StartsCast(t, i, n) {
      f := ReadCast(t, i, n);
    } else {
      var target := ReadPrimary(t, i, n);
      f := ReadApply(t, i, first.next, target, first.tree, n);
      LowerLevel(f, 9, 8, n);
    }
  }

  lemma {:induction false} ReadCast(t: Tokens, i: nat, n: Names) returns (f: Form)
    requires i <= |t| && StartsCast(t, i, n) && ParsePostfix(t, i, n).Parsed?
    ensures var r := ParsePostfix(t, i, n); Reads(t, i, r.next, f, 8, n, r.tree)
    decreases |t| - i, 10
  {
    var child := ParsePostfix(t, i + 3, n);
    var inner := ReadPostfix(t, i + 3, n);
    NoPostfixLeft(t, ParsePrimary(t, i + 3, n).next, ParsePrimary(t, i + 3, n).tree, n);
    assert ParsePrimary(t, i, n) == Parsed(Cast(t[i + 1], child.tree), child.next);
    assert t[i..i + 3] == [LParen, t[i + 1], RParen];
    Joined(t, i, i + 3, child.next, [LParen, t[i + 1], RParen], Write(inner));
    f := CastForm(t[i + 1], inner);
  }

  lemma {:induction false} ReadPrimary(t: Tokens, i: nat, n: Names) returns (f: Form)
    requires i <= |t| && !StartsCast(t, i, n) && ParsePrimary(t, i, n).Parsed?
    ensures var r := ParsePrimary(t, i, n); Reads(t, i, r.next, f, 9, n, r.tree)
    decreases |t| - i, 9
  {
    OneToken(t, i);
    if t[i].LParen? {
      var e := ParseLevel(t, i + 1, 1, n);
      var inner := ReadLevel(t, i + 1, 1, n);
      OneToken(t, e.next);
      Joined(t, i + 1, e.next, e.next + 1, Write(inner), [RParen]);
      Joined(t, i, i + 1, e.next + 1, [LParen], Write(inner) + [RParen]);
      if inner.Leaf? {
        assert t[i + 1] == t[i + 1..e.next][0];
        assert |t[i + 1..e.next]| == 1;
      }
      f := Group(inner);
    } else {
      f := Leaf(t[i]);
    }
  }

  lemma {:induction false} ReadApply(t: Tokens, start: nat, i: nat, target: Form, a: Tree, n: Names) returns (f: Form)
    requires Reads(t, start, i, target, 9, n, a) && ApplyPostfix(t, i, a, n).Parsed?
    ensures var r := ApplyPostfix(t, i, a, n); Reads(t, start, r.next, f, 9, n, r.tree)
    decreases |t| - i, 10
  {
    if Has(t, i, LParen) {
      f := ReadCall(t, start, i, target, a, n);
    } else if Has(t, i, Dot) {
      DotReads(t, start, i, target, a, n);
      f := ReadApply(t, start, i + 2, DotForm(target, t[i + 1].name), Member(a, t[i + 1].name), n);
    } else if Has(t, i, LBracket) {
      f := ReadIndex(t, start, i, target, a, n);
    } else {
      f := target;
    }
  }

  lemma {:induction false} ReadCall(t: Tokens, start: nat, i: nat, target: Form, a: Tree, n: Names) returns (f: Form)
    requires Reads(t, start, i, target, 9, n, a) && ApplyPostfix(t, i, a, n).Parsed? && Has(t, i, LParen)
    ensures var r := ApplyPostfix(t, i, a, n); Reads(t, start, r.next, f, 9, n, r.tree)
    decreases |t| - i, 9
  {
    var args := ParseArguments(t, i + 1, n);
    var fs, comma := ReadArguments(t, i + 1, n);
    CallReads(t, start, i, args.next, target, a, fs, comma, n);
    f := ReadApply(t, start, args.next, CallForm(target, fs, comma), CallOf(a, args.tree, n).value, n);
  }

  lemma {:induction false} ReadIndex(t: Tokens, start: nat, i: nat, target: Form, a: Tree, n: Names) returns (f: Form)
    requires Reads(t, start, i, target, 9, n, a) && ApplyPostfix(t, i, a, n).Parsed? && Has(t, i, LBracket)
    ensures var r := ApplyPostfix(t, i, a, n); Reads(t, start, r.next, f, 9, n, r.tree)
    decreases |t| - i, 9
  {
    var b, k := IndexStep(t, i, a, n);
    var inner := ReadLevel(t, i + 1, 1, n);
    IndexReads(t, start, i, k, target, a, inner, b, n);
    f := ReadApply(t, start, k + 1, IndexForm(target, inner), Index(a, b), n);
  }

  lemma {:induction false} IndexStep(t: Tokens, i: nat, a: Tree, n: Names) returns (b: Tree, k: nat)
    requires Has(t, i, LBracket) && ApplyPostfix(t, i, a, n).Parsed?
    ensures i + 1 < k < |t| && ParseLevel(t, i + 1, 1, n) == Parsed(b, k) && Has(t, k, RBracket)
    ensures ApplyPostfix(t, i, a, n) == ApplyPostfix(t, k + 1, Index(a, b), n)
  {
    b, k := ParseLevel(t, i + 1, 1, n).tree, ParseLevel(t, i + 1, 1, n).next;
  }

  lemma {:induction false} DotReads(t: Tokens, start: nat, i: nat, target: Form, a: Tree, n: Names)
    requires Reads(t, start, i, target, 9, n, a) && Has(t, i, Dot) && i + 1 < |t| && t[i + 1].Ident?
    ensures Reads(t, start, i + 2, DotForm(target, t[i + 1].name), 9, n, Member(a, t[i + 1].name))
  {
    assert t[i..i + 2] == [Dot, t[i + 1]];
    Joined(t, start, i, i + 2, Write(target), [Dot, t[i + 1]]);
  }

  lemma {:induction false} IndexReads(
      t: Tokens, start: nat, i: nat, k: nat, target: Form, a: Tree, inner: Form, b: Tree, n: Names)
    requires Reads(t, start, i, target, 9, n, a) && Has(t, i, LBracket)
    requires Reads(t, i + 1, k, inner, 1, n, b) && Has(t, k, RBracket)
    ensures Reads(t, start, k + 1, IndexForm(target, inner), 9, n, Index(a, b))
  {
    OneToken(t, i);
    OneToken(t, k);
    Joined(t, i + 1, k, k + 1, Write(inner), [RBracket]);
    Joined(t, i, i + 1, k + 1, [LBracket], Write(inner) + [RBracket]);
    Joined(t, start, i, k + 1, Write(target), [LBracket] + (Write(inner) + [RBracket]));
  }

  // ----- arguments -----

  function Closing(comma: bool): Tokens {
    if comma then [Comma, RParen] else [RParen]
  }

  lemma {:induction false} CallReads(
      t: Tokens, start: nat, i: nat, j: nat, target: Form, a: Tree, fs: seq<Form>, comma: bool, n: Names)
    requires Reads(t, start, i, target, 9, n, a) && Has(t, i, LParen) && i + 1 <= j <= |t|
    requires FormsOk(fs, n) && (comma ==> fs != []) && t[i + 1..j] == WriteArgs(fs) + Closing(comma)
    requires CallOf(a, TreesOf(fs, n), n).Some?
    ensures Reads(t, start, j, CallForm(target, fs, comma), 9, n, CallOf(a, TreesOf(fs, n), n).value)
  {
    OneToken(t, i);
    Joined(t, i, i + 1, j, [LParen], WriteArgs(fs) + Closing(comma));
    Joined(t, start, i, j, Write(target), [LParen] + (WriteArgs(fs) + Closing(comma)));
  }

  lemma {:induction false} ReadArguments(t: Tokens, i: nat, n: Names) returns (fs: seq<Form>, comma: bool)
    requires i <= |t| && ParseArguments(t, i, n).Parsed?
    ensures FormsOk(fs, n) && (comma ==> fs != []) && TreesOf(fs, n) == ParseArguments(t, i, n).tree
    ensures t[i..ParseArguments(t, i, n).next] == WriteArgs(fs) + Closing(comma)
    decreases |t| - i, 22
  {
    if Has(t, i, RParen) {
      fs, comma := [], false;
      OneToken(t, i);
    } else {
      fs, comma := ReadList(t, i, [], n);
      assert [] + TreesOf(fs, n) == TreesOf(fs, n);
    }
  }

  lemma {:induction false} FormsCons(f: Form, rest: seq<Form>, n: Names)
    requires FormOk(f, 1, n) && FormsOk(rest, n)
    ensures FormsOk([f] + rest, n) && TreesOf([f] + rest, n) == [TreeOf(f, n)] + TreesOf(rest, n)
    ensures WriteArgs([f] + rest) == if rest == [] then Write(f) else Write(f) + ([Comma] + WriteArgs(rest))
  {
    assert ([f] + rest)[1..] == rest;
  }

  lemma {:induction false} LastArgument(t: Tokens, i: nat, j: nat, first: Form, n: Names)
      returns (comma: bool, k: nat)
    requires i <= j < |t| && FormOk(first, 1, n) && t[i..j] == Write(first)
    requires Has(t, j, RParen) || (Has(t, j, Comma) && Has(t, j + 1, RParen))
    ensures comma == Has(t, j, Comma) && k == (if comma then j + 2 else j + 1) <= |t|
    ensures FormsOk([first], n) && TreesOf([first], n) == [TreeOf(first, n)]
    ensures t[i..k] == WriteArgs([first]) + Closing(comma)
  {
    comma := Has(t, j, Comma);
    k := if comma then j + 2 else j + 1;
    FormsCons(first, [], n);
    assert [first] + [] == [first];
    assert t[j..k] == Closing(comma);
    Joined(t, i, j, k, Write(first), Closing(comma));
  }

  lemma {:induction false} ReadList(t: Tokens, i: nat, args: seq<Tree>, n: Names) returns (fs: seq<Form>, comma: bool)
    requires i <= |t| && ParseArgumentList(t, i, args, n).Parsed?
    ensures fs != [] && FormsOk(fs, n) && args + TreesOf(fs, n) == ParseArgumentList(t, i, args, n).tree
    ensures t[i..ParseArgumentList(t, i, args, n).next] == WriteArgs(fs) + Closing(comma)
    decreases |t| - i, 21
  {
    var arg := ParseLevel(t, i, 1, n);
    var first := ReadLevel(t, i, 1, n);
    var j := arg.next;
    if Has(t, j, Comma) && !Has(t, j + 1, RParen) {
      var whole := ParseArgumentList(t, j + 1, args + [arg.tree], n);
      fs, comma := ReadMore(t, i, j, args, arg.tree, first, whole, n);
    } else {
      var k;
      comma, k := LastArgument(t, i, j, first, n);
      fs := [first];
    }
  }

  lemma {:induction false} ReadMore(
      t: Tokens, i: nat, j: nat, args: seq<Tree>, a: Tree, first: Form, whole: Parsed<seq<Tree>>, n: Names)
      returns (fs: seq<Form>, comma: bool)
    requires Reads(t, i, j, first, 1, n, a) && Has(t, j, Comma) && i < j
    requires whole.Parsed? && ParseArgumentList(t, j + 1, args + [a], n) == whole
    ensures whole.next <= |t| && i <= whole.next && fs != [] && FormsOk(fs, n) && args + TreesOf(fs, n) == whole.tree
    ensures t[i..whole.next] == WriteArgs(fs) + Closing(comma)
    decreases |t| - j, 22
  {
    var rest;
    rest, comma := ReadList(t, j + 1, args + [a], n);
    ListMore(t, i, j, whole.next, first, rest, comma, n);
    Regrouped(args, a, TreesOf(rest, n));
    fs := [first] + rest;
  }

  lemma {:induction false} Regrouped<T>(before: seq<T>, x: T, rest: seq<T>)
    ensures (before + [x]) + rest == before + ([x] + rest)
  {
  }

  lemma {:induction false} ListMore(
      t: Tokens, i: nat, j: nat, k: nat, first: Form, rest: seq<Form>, comma: bool, n: Names)
    requires i <= j < k <= |t| && FormOk(first, 1, n) && t[i..j] == Write(first) && t[j] == Comma
    requires rest != [] && FormsOk(rest, n) && t[j + 1..k] == WriteArgs(rest) + Closing(comma)
    ensures FormsOk([first] + rest, n) && TreesOf([first] + rest, n) == [TreeOf(first, n)] + TreesOf(rest, n)
    ensures t[i..k] == WriteArgs([first] + rest) + Closing(comma)
  {
    FormsCons(first, rest, n);
    OneToken(t, j);
    Joined(t, j, j + 1, k, [Comma], WriteArgs(rest) + Closing(comma));
    Joined(t, i, j, k, Write(first), [Comma] + (WriteArgs(rest) + Closing(comma)));
    MoreWritten(Write(first), [Comma], WriteArgs(rest), Closing(comma));
  }

  lemma {:induction false} MoreWritten(a: Tokens, b: Tokens, c: Tokens, d: Tokens)
    ensures a + (b + (c + d)) == (a + (b + c)) + d
  {
  }

  // ----- main result -----

  /** Whatever is accepted is an expression of the grammar: the tokens that were read are a form, and the tree is that
      of the form. */
  lemma {:induction false} AcceptedIsWritten(t: Tokens, i: nat, n: Names)
    requires i <= |t| && ParseExpression(t, i, n).Parsed?
    ensures var r := ParseExpression(t, i, n);
      exists f :: FormOk(f, 1, n) && t[i..r.next] == Write(f) && TreeOf(f, n) == r.tree
  {
    var f := ReadLevel(t, i, 1, n);
  }
}
