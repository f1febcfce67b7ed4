/** The expression parser as src/frontend/parser/parser.c runs it: one method per level, each moving the
    token index, with loops that rebuild their left operand. The first syntax error ends the parse. */
module LadderParser {
  import opened Wrappers
  import opened Ladder

  class Parser {
    const tokens: Tokens
    const names: Names
    var index: nat
    var error: bool

    constructor (tokens: Tokens, names: Names)
      ensures this.tokens == tokens && this.names == names && index == 0 && !error
    {
      this.tokens, this.names, index, error := tokens, names, 0, false;
    }

    predicate Valid()
      reads this
    {
      !error && index <= |tokens|
    }

    /** The outcome of a call that answered `tree`. */
    ghost predicate Did<T>(r: Parsed<T>, tree: Option<T>)
      reads this
    {
      match r
      case Bad => tree.None? && error
      case Parsed(e, j) => tree == Some(e) && Valid() && index == j
    }

    /** What was read since `start` is `left`; the loop of the level goes on from here. */
    ghost predicate Continues(start: nat, level: nat, left: Tree)
      requires start <= |tokens| && (level == 1 || level == 2 || level == 4 || level == 5 || level == 6)
      reads this
    {
      && Valid() && start < index
      && ParseRest(tokens, index, level, left, names) == ParseLevel(tokens, start, level, names)
    }

    /** Some postfixes have turned `expr` into `now`. */
    ghost predicate Applied(start: nat, expr: Tree, now: Tree)
      requires start <= |tokens|
      reads this
    {
      && Valid() && start <= index
      && ApplyPostfix(tokens, index, now, names) == ApplyPostfix(tokens, start, expr, names)
    }

    predicate Match(token: Token)
      reads this
    {
      Has(tokens, index, token)
    }

    method ParseExpressionHere() returns (tree: Option<Tree>)
      requires Valid()
      modifies this
      ensures Did(ParseExpression(tokens, old(index), names), tree)
      decreases |tokens| - index, 20
    {
      tree := ParseOr();
    }

    method ParseOr() returns (tree: Option<Tree>)
      requires Valid()
      modifies this
      ensures Did(ParseLevel(tokens, old(index), 1, names), tree)
      decreases |tokens| - index, 19
    {
      tree := ParseAnd();
      while tree.Some? && Match(Operator(Or))
        invariant tree.None? ==> Did(ParseLevel(tokens, old(index), 1, names), tree)
        invariant tree.Some? ==> Continues(old(index), 1, tree.value)
        decreases tree.Some?, |tokens| - index
      {
        index := index + 1;
        var right := ParseAnd();
        tree := if right.None? then None else Some(Binary(Or, tree.value, right.value));
      }
    }

    method ParseAnd() returns (tree: Option<Tree>)
      requires Valid()
      modifies this
      ensures Did(ParseLevel(tokens, old(index), 2, names), tree)
      decreases |tokens| - index, 18
    {
      tree := ParseNot();
      while tree.Some? && Match(Operator(And))
        invariant tree.None? ==> Did(ParseLevel(tokens, old(index), 2, names), tree)
        invariant tree.Some? ==> Continues(old(index), 2, tree.value)
        decreases tree.Some?, |tokens| - index
      {
        index := index + 1;
        var right := ParseNot();
        tree := if right.None? then None else Some(Binary(And, tree.value, right.value));
      }
    }

    method ParseNot() returns (tree: Option<Tree>)
      requires Valid()
      modifies this
      ensures Did(ParseLevel(tokens, old(index), 3, names), tree)
      decreases |tokens| - index, 17
    {
      if Match(Not) {
        index := index + 1;
        var right := ParseComparison();
        return if right.None? then None else Some(NotOf(right.value));
      }
      tree := ParseComparison();
    }

    method ParseComparison() returns (tree: Option<Tree>)
      requires Valid()
      modifies this
      ensures Did(ParseLevel(tokens, old(index), 4, names), tree)
      decreases |tokens| - index, 16
    {
      tree := ParseAdditive();
      while tree.Some? && (Match(Operator(Eq)) || Match(Operator(Ne)) || Match(Operator(Lt)) || Match(Operator(Le))
                           || Match(Operator(Gt)) || Match(Operator(Ge)))
        invariant tree.None? ==> Did(ParseLevel(tokens, old(index), 4, names), tree)
        invariant tree.Some? ==> Continues(old(index), 4, tree.value)
        decreases tree.Some?, |tokens| - index
      {
        var op := tokens[index].op;
        index := index + 1;
        var right := ParseAdditive();
        tree := if right.None? then None else Some(Binary(op, tree.value, right.value));
      }
    }

    method ParseAdditive() returns (tree: Option<Tree>)
      requires Valid()
      modifies this
      ensures Did(ParseLevel(tokens, old(index), 5, names), tree)
      decreases |tokens| - index, 15
    {
      tree := ParseMultiplicative();
      while tree.Some? && (Match(Operator(Plus)) || Match(Operator(Minus)))
        invariant tree.None? ==> Did(ParseLevel(tokens, old(index), 5, names), tree)
        invariant tree.Some? ==> Continues(old(index), 5, tree.value)
        decreases tree.Some?, |tokens| - index
      {
        var op := tokens[index].op;
        index := index + 1;
        var right := ParseMultiplicative();
        tree := if right.None? then None else Some(Binary(op, tree.value, right.value));
      }
    }

    method ParseMultiplicative() returns (tree: Option<Tree>)
      requires Valid()
      modifies this
      ensures Did(ParseLevel(tokens, old(index), 6, names), tree)
      decreases |tokens| - index, 14
    {
      tree := ParsePower();
      while tree.Some? && (Match(Operator(Star)) || Match(Operator(Slash)) || Match(Operator(Percent)))
        invariant tree.None? ==> Did(ParseLevel(tokens, old(index), 6, names), tree)
        invariant tree.Some? ==> Continues(old(index), 6, tree.value)
        decreases tree.Some?, |tokens| - index
      {
        var op := tokens[index].op;
        index := index + 1;
        var right := ParsePower();
        tree := if right.None? then None else Some(Binary(op, tree.value, right.value));
      }
    }

    method ParsePower() returns (tree: Option<Tree>)
      requires Valid()
      modifies this
      ensures Did(ParseLevel(tokens, old(index), 7, names), tree)
      decreases |tokens| - index, 13
    {
      tree := ParsePostfixHere();
      if tree.Some? && Match(Operator(Caret)) {
        index := index + 1;
        var exponent := ParsePower();
        tree := if exponent.None? then None else Some(Binary(Caret, tree.value, exponent.value));
      }
    }

    method ParsePostfixHere() returns (tree: Option<Tree>)
      requires Valid()
      modifies this
      ensures Did(ParsePostfix(tokens, old(index), names), tree)
      decreases |tokens| - index, 11
    {
      tree := ParsePrimaryHere();
      if tree.Some? {
        tree := ApplyPostfixHere(tree.value);
      }
    }

    method ParsePrimaryHere() returns (tree: Option<Tree>)
      requires Valid()
      modifies this
      ensures Did(ParsePrimary(tokens, old(index), names), tree)
      decreases |tokens| - index, 10
    {
      if index >= |tokens| {
        error := true;
        return None;
      }
      var token := tokens[index];
      if token.Ident? || (token.TypeWord? && names.namespace(token.name)) {
        index := index + 1;
        return Some(Id(token.name));
      }
      if token.Str? {
        index := index + 1;
        return Some(Text(token.text));
      }
      if token.Number? {
        index := index + 1;
        return Some(Num(token.text));
      }
      if token.True? || token.False? {
        index := index + 1;
        return Some(Bool(token.True?));
      }
      if token.LParen? {
        if StartsCast(tokens, index, names) {
          var type_ := tokens[index + 1];
          index := index + 3;
          var child := ParsePostfixHere();
          return if child.None? then None else Some(Cast(type_, child.value));
        }
        index := index + 1;
        tree := ParseExpressionHere();
        if tree.Some? {
          if Match(RParen) {
            index := index + 1;
          } else {
            error := true;
            tree := None;
          }
        }
        return;
      }
      error := true;
      return None;
    }

    method ApplyPostfixHere(expr: Tree) returns (tree: Option<Tree>)
      requires Valid()
      modifies this
      ensures Did(ApplyPostfix(tokens, old(index), expr, names), tree)
      decreases |tokens| - index, 12
    {
      tree := Some(expr);
      while tree.Some? && (Match(LParen) || Match(Dot) || Match(LBracket))
        invariant tree.None? ==> Did(ApplyPostfix(tokens, old(index), expr, names), tree)
        invariant tree.Some? ==> Applied(old(index), expr, tree.value)
        decreases tree.Some?, |tokens| - index
      {
        if Match(LParen) {
          tree := BuildCall(tree.value);
        } else if Match(Dot) {
          tree := BuildMember(tree.value);
        } else {
          tree := BuildIndex(tree.value);
        }
      }
    }

    method BuildCall(callee: Tree) returns (tree: Option<Tree>)
      requires Valid() && Match(LParen)
      modifies this
      ensures tree.None? ==> error && ApplyPostfix(tokens, old(index), callee, names).Bad?
      ensures tree.Some? ==> old(index) < index && Applied(old(index), callee, tree.value)
      decreases |tokens| - index, 11
    {
      index := index + 1;
      var args := ParseArgumentsHere();
      if args.None? {
        return None;
      }
      tree := CallOf(callee, args.value, names);
      if tree.None? {
        error := true;
      }
    }

    method BuildMember(target: Tree) returns (tree: Option<Tree>)
      requires Valid() && Match(Dot)
      modifies this
      ensures tree.None? ==> error && ApplyPostfix(tokens, old(index), target, names).Bad?
      ensures tree.Some? ==> old(index) < index && Applied(old(index), target, tree.value)
    {
      index := index + 1;
      if index >= |tokens| || !tokens[index].Ident? {
        error := true;
        return None;
      }
      tree := Some(Member(target, tokens[index].name));
      index := index + 1;
    }

    method BuildIndex(target: Tree) returns (tree: Option<Tree>)
      requires Valid() && Match(LBracket)
      modifies this
      ensures tree.None? ==> error && ApplyPostfix(tokens, old(index), target, names).Bad?
      ensures tree.Some? ==> old(index) < index && Applied(old(index), target, tree.value)
      decreases |tokens| - index, 11
    {
      index := index + 1;
      var inner := ParseExpressionHere();
      if inner.None? {
        return None;
      }
      if !Match(RBracket) {
        error := true;
        return None;
      }
      index := index + 1;
      tree := Some(Index(target, inner.value));
    }

    /** The arguments after the opening parenthesis. */
    method ParseArgumentsHere() returns (args: Option<seq<Tree>>)
      requires Valid()
      modifies this
      ensures Did(ParseArguments(tokens, old(index), names), args)
      decreases |tokens| - index, 21
    {
      if Match(RParen) {
        index := index + 1;
        return Some([]);
      }
      var list: seq<Tree> := [];
      while true
        invariant Valid() && old(index) <= index
        invariant ParseArgumentList(tokens, index, list, names) == ParseArguments(tokens, old(index), names)
        decreases |tokens| - index
      {
        var arg := ParseExpressionHere();
        if arg.None? {
          return None;
        }
        list := list + [arg.value];
        if !Match(Comma) {
          break;
        }
        index := index + 1;
        if Match(RParen) {
          break;
        }
      }
      if !Match(RParen) {
        error := true;
        return None;
      }
      index := index + 1;
      return Some(list);
    }
  }
}
