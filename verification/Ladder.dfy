/** Expressions of the language and the precedence ladder of src/frontend/parser/parser.c. */
module Ladder {
  import opened Wrappers

  datatype Op = Or | And | Eq | Ne | Lt | Le | Gt | Ge | Plus | Minus | Star | Slash | Percent | Caret

  datatype Token =
    | Ident(name: string)
    | Number(text: string)
    | Str(text: string)
    | True
    | False
    | TypeWord(name: string)
    | Operator(op: Op)
    | Not
    | LParen
    | RParen
    | LBracket
    | RBracket
    | Comma
    | Dot
    | Other

  datatype Tree =
    | Id(name: string)
    | Num(text: string)
    | Text(text: string)
    | Bool(b: bool)
    | Binary(op: Op, left: Tree, right: Tree)
    | NotOf(child: Tree)
    | Cast(type_: Token, child: Tree)
    | Call(callee: string, args: seq<Tree>)
    | Index(target: Tree, index: Tree)
    | Member(target: Tree, name: string)

  /** What the parser knows about names: type aliases and namespaces. */
  datatype Names = Names(alias: string -> bool, namespace: string -> bool)

  type Tokens = seq<Token>

  // ----- levels -----

  /** 1 `or`, 2 `and`, 3 `not`, 4 comparison, 5 `+ -`, 6 `* / %`, 7 `^`, 8 postfix and cast; 9 is what a
      postfix may be applied to. */
  type Level = l: nat | 1 <= l <= 9 witness 1

  function OpLevel(op: Op): Level {
    match op
    case Or => 1
    case And => 2
    case Eq => 4
    case Ne => 4
    case Lt => 4
    case Le => 4
    case Gt => 4
    case Ge => 4
    case Plus => 5
    case Minus => 5
    case Star => 6
    case Slash => 6
    case Percent => 6
    case Caret => 7
  }

  predicate HasOp(t: Tokens, i: nat, level: nat) {
    i < |t| && t[i].Operator? && OpLevel(t[i].op) == level
  }

  predicate Has(t: Tokens, i: nat, token: Token) {
    i < |t| && t[i] == token
  }

  // ----- parsing -----

  datatype Parsed<T> = Bad | Parsed(tree: T, next: nat)

  predicate IsType(n: Names, token: Token) {
    token.TypeWord? || (token.Ident? && n.alias(token.name))
  }

  /** A parenthesised single token that names a type starts a cast. */
  predicate StartsCast(t: Tokens, i: nat, n: Names) {
    i + 2 < |t| && t[i] == LParen && t[i + 2] == RParen && IsType(n, t[i + 1])
  }

  /** The levels from `or` down to `^`. The levels of `or`, `and`, comparison, sums and products loop to
      the left, `^` recurs to the right and `not` comes at most once. */
  function ParseLevel(t: Tokens, i: nat, level: nat, n: Names): (r: Parsed<Tree>)
    requires i <= |t| && 1 <= level <= 8
    ensures r.Parsed? ==> i < r.next <= |t|
    decreases |t| - i, 20 - level
  {
    if level == 8 then ParsePostfix(t, i, n)
    else if level == 7 then
      match ParsePostfix(t, i, n)
      case Bad => Bad
      case Parsed(base, j) =>
        if !HasOp(t, j, 7) then Parsed(base, j)
        else
          (match ParseLevel(t, j + 1, 7, n)
           case Bad => Bad
           case Parsed(exponent, k) => Parsed(Binary(t[j].op, base, exponent), k))
    else if level == 3 then
      if Has(t, i, Not) then
        match ParseLevel(t, i + 1, 4, n)
        case Bad => Bad
        case Parsed(child, j) => Parsed(NotOf(child), j)
      else ParseLevel(t, i, 4, n)
    else
      match ParseLevel(t, i, level + 1, n)
      case Bad => Bad
      case Parsed(left, j) => ParseRest(t, j, level, left, n)
  }

  /** The loop of a level: more operators of the level, each taking what was read so far to its left. */
  function ParseRest(t: Tokens, i: nat, level: nat, left: Tree, n: Names): (r: Parsed<Tree>)
    requires i <= |t| && 1 <= level <= 6 && level != 3
    ensures r.Parsed? ==> i <= r.next <= |t|
    decreases |t| - i, 20 - level
  {
    if !HasOp(t, i, level) then Parsed(left, i)
    else
      match ParseLevel(t, i + 1, level + 1, n)
      case Bad => Bad
      case Parsed(right, j) => ParseRest(t, j, level, Binary(t[i].op, left, right), n)
  }

  function ParsePostfix(t: Tokens, i: nat, n: Names): (r: Parsed<Tree>)
    requires i <= |t|
    ensures r.Parsed? ==> i < r.next <= |t|
    decreases |t| - i, 11
  {
    match ParsePrimary(t, i, n)
    case Bad => Bad
    case Parsed(e, j) => ApplyPostfix(t, j, e, n)
  }

  function ParsePrimary(t: Tokens, i: nat, n: Names): (r: Parsed<Tree>)
    requires i <= |t|
    ensures r.Parsed? ==> i < r.next <= |t|
    decreases |t| - i, 10
  {
    if i == |t| then Bad
    else
      match t[i]
      case Ident(name) => Parsed(Id(name), i + 1)
      case TypeWord(name) => if n.namespace(name) then Parsed(Id(name), i + 1) else Bad
      case Number(text) => Parsed(Num(text), i + 1)
      case Str(text) => Parsed(Text(text), i + 1)
      case True => Parsed(Bool(true), i + 1)
      case False => Parsed(Bool(false), i + 1)
      case LParen =>
        if StartsCast(t, i, n) then
          match ParsePostfix(t, i + 3, n)
          case Bad => Bad
          case Parsed(child, j) => Parsed(Cast(t[i + 1], child), j)
        else
          (match ParseLevel(t, i + 1, 1, n)
           case Bad => Bad
           case Parsed(e, j) => if Has(t, j, RParen) then Parsed(e, j + 1) else Bad)
      case _ => Bad
  }

  /** Calls, members and indices applied to an expression, as many as follow. */
  function ApplyPostfix(t: Tokens, i: nat, e: Tree, n: Names): (r: Parsed<Tree>)
    requires i <= |t|
    ensures r.Parsed? ==> i <= r.next <= |t|
    decreases |t| - i, 10
  {
    if Has(t, i, LParen) then
      match ParseArguments(t, i + 1, n)
      case Bad => Bad
      case Parsed(args, j) =>
        match CallOf(e, args, n)
        case None => Bad
        case Some(call) => ApplyPostfix(t, j, call, n)
    else if Has(t, i, Dot) then
      if i + 1 < |t| && t[i + 1].Ident? then ApplyPostfix(t, i + 2, Member(e, t[i + 1].name), n) else Bad
    else if Has(t, i, LBracket) then
      match ParseLevel(t, i + 1, 1, n)
      case Bad => Bad
      case Parsed(index, j) =>
        if Has(t, j, RBracket) then ApplyPostfix(t, j + 1, Index(e, index), n) else Bad
    else Parsed(e, i)
  }

  /** The function that a method is turned into. */
  function MethodName(name: string): string {
    match name
    case "push" => "__array_push"
    case "format" => "__string_format"
    case "pop" => "__array_pop"
    case "clear" => "__array_clear"
    case _ => "__member_" + name
  }

  function NamespaceName(namespace: string, name: string): string {
    "__modulecall_" + namespace + "__" + name
  }

  /** A call of a name, of a member of a namespace, or of a method; the object of a method becomes the
      first argument. */
  function CallOf(callee: Tree, args: seq<Tree>, n: Names): Option<Tree> {
    match callee
    case Id(name) => Some(Call(name, args))
    case Member(target, name) =>
      if target.Id? && n.namespace(target.name) then Some(Call(NamespaceName(target.name, name), args))
      else Some(Call(MethodName(name), [target] + args))
    case _ => None
  }

  /** The arguments after the opening parenthesis, up to and with the closing one. */
  function ParseArguments(t: Tokens, i: nat, n: Names): (r: Parsed<seq<Tree>>)
    requires i <= |t|
    ensures r.Parsed? ==> i < r.next <= |t|
    decreases |t| - i, 21
  {
    if Has(t, i, RParen) then Parsed([], i + 1) else ParseArgumentList(t, i, [], n)
  }

  /** A comma before the closing parenthesis is accepted. */
  function ParseArgumentList(t: Tokens, i: nat, args: seq<Tree>, n: Names): (r: Parsed<seq<Tree>>)
    requires i <= |t|
    ensures r.Parsed? ==> i < r.next <= |t|
    decreases |t| - i, 20
  {
    match ParseLevel(t, i, 1, n)
    case Bad => Bad
    case Parsed(arg, j) =>
      if Has(t, j, Comma) then
        if Has(t, j + 1, RParen) then Parsed(args + [arg], j + 2) else ParseArgumentList(t, j + 1, args + [arg], n)
      else if Has(t, j, RParen) then Parsed(args + [arg], j + 1)
      else Bad
  }

  function ParseExpression(t: Tokens, i: nat, n: Names): Parsed<Tree>
    requires i <= |t|
  {
    ParseLevel(t, i, 1, n)
  }

  // ----- printing -----

  function Prec(e: Tree): Level {
    match e
    case Binary(op, _, _) => OpLevel(op)
    case NotOf(_) => 3
    case Cast(_, _) => 8
    case _ => 9
  }

  function Size(e: Tree): nat
    decreases e
  {
    match e
    case Binary(_, left, right) => 1 + Size(left) + Size(right)
    case NotOf(child) => 1 + Size(child)
    case Cast(_, child) => 1 + Size(child)
    case Call(_, args) => 1 + SizeAll(args)
    case Index(target, index) => 1 + Size(target) + Size(index)
    case Member(target, _) => 1 + Size(target)
    case _ => 1
  }

  function SizeAll(es: seq<Tree>): nat
    decreases es
  {
    if es == [] then 0 else 1 + Size(es[0]) + SizeAll(es[1..])
  }

  /** The tree where a `level` is expected: in parentheses only if its own level is lower. */
  function Print(e: Tree, level: Level): Tokens
    decreases Size(e), 1
  {
    if Prec(e) < level then [LParen] + (Bare(e) + [RParen]) else Bare(e)
  }

  /** `^` groups to the right, the other operators to the left. */
  function Bare(e: Tree): Tokens
    decreases Size(e), 0
  {
    match e
    case Id(name) => [Ident(name)]
    case Num(text) => [Number(text)]
    case Text(text) => [Str(text)]
    case Bool(b) => [if b then True else False]
    case Binary(op, left, right) =>
      if op.Caret? then Print(left, 8) + ([Operator(op)] + Print(right, 7))
      else Print(left, OpLevel(op)) + ([Operator(op)] + Print(right, OpLevel(op) + 1))
    case NotOf(child) => [Not] + Print(child, 4)
    case Cast(type_, child) => [LParen, type_, RParen] + Print(child, 8)
    case Call(callee, args) => [Ident(callee), LParen] + (PrintArguments(args) + [RParen])
    case Index(target, index) => Print(target, 9) + ([LBracket] + (Print(index, 1) + [RBracket]))
    case Member(target, name) => Print(target, 9) + [Dot, Ident(name)]
  }

  function PrintArguments(args: seq<Tree>): Tokens
    decreases SizeAll(args), 2
  {
    if args == [] then []
    else if |args| == 1 then Print(args[0], 1)
    else Print(args[0], 1) + ([Comma] + PrintArguments(args[1..]))
  }
}
