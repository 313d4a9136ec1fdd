/** The precedence-climbing parser on operators, integers, identifiers, negation and parentheses
    (`src/parser.c:398-450, 545-592, 593-637, 684-711, 732-736`), outside statement position.  A
    call, an index, a member access, a cast or a pointer type ends the model with `None`. */
module Parser {
  import opened Wrappers

  datatype BinOp =
    | Assign | AssignPlus | AssignMinus | AssignTimes | AssignDivide | AssignPercent
    | Or | And | BitOr | BitXor | BitAnd
    | Equals | NotEquals | Less | Greater | LessEqual | GreaterEqual
    | Plus | Minus | Times | Divide | Percent

  /** `Other` is any token that can neither start nor continue an expression, such as `;` or `,`;
      `Beyond` starts one of the forms that are not modelled. */
  datatype Token = Number(value: nat) | Name(name: string) | Operator(op: BinOp) | Open | Close | Other(kind: nat) | Beyond

  datatype Tree = Literal(value: nat) | Ident(name: string) | Binary(op: BinOp, left: Tree, right: Tree) | Negate(operand: Tree)

  /** `get_binary_precedence` outside statement position. */
  function Precedence(op: BinOp): (p: nat)
    ensures 20 <= p <= 130
  {
    match op
    case Assign => 20
    case AssignPlus => 20
    case AssignMinus => 20
    case AssignTimes => 20
    case AssignDivide => 20
    case AssignPercent => 20
    case Or => 40
    case And => 50
    case BitOr => 60
    case BitXor => 70
    case BitAnd => 80
    case Equals => 90
    case NotEquals => 90
    case Less => 100
    case Greater => 100
    case LessEqual => 100
    case GreaterEqual => 100
    case Plus => 120
    case Minus => 120
    case Times => 130
    case Divide => 130
    case Percent => 130
  }

  const POSTFIX := 150
  const PREFIX := 140

  type Parse = Option<(Tree, seq<Token>)>

  /** The next token calls, indexes, selects or casts: what follows is outside the model. */
  predicate GoesBeyond(tokens: seq<Token>) {
    tokens != [] && (tokens[0].Open? || tokens[0].Beyond?)
  }

  predicate AtOperator(tokens: seq<Token>) {
    tokens != [] && tokens[0].Operator?
  }

  /** After `*` these tokens turn what came before into a pointer type. */
  predicate MakesPointer(op: BinOp, tokens: seq<Token>) {
    op == Times && tokens != []
    && (tokens[0] == Operator(Times) || tokens[0] == Operator(Percent) || tokens[0].Close? || tokens[0].Other? || tokens[0].Beyond?)
  }

  /** `parser_parse_primary`. */
  function Primary(tokens: seq<Token>): (r: Parse)
    ensures r.Some? ==> |r.value.1| < |tokens|
    decreases |tokens|, 0
  {
    if tokens == [] then None else
    match tokens[0]
    case Number(n) => Some((Literal(n), tokens[1..]))
    case Name(s) => Some((Ident(s), tokens[1..]))
    case Open =>
      var e := Expression(0, tokens[1..]);
      if e.None? || e.value.1 == [] || !e.value.1[0].Close? then None else Some((e.value.0, e.value.1[1..]))
    case Operator(Minus) =>
      var e := Expression(PREFIX, tokens[1..]);
      if e.None? then None else Some((Negate(e.value.0), e.value.1))
    case _ => None
  }

  /** `parser_parse_expression` without a left operand. */
  function Expression(last: nat, tokens: seq<Token>): (r: Parse)
    ensures r.Some? ==> |r.value.1| < |tokens|
    decreases |tokens|, 3
  {
    var first := Primary(tokens);
    if first.None? then None else Climb(first.value.0, last, first.value.1)
  }

  /** The loop of `parser_parse_expression` from a left operand on.  A `*` that binds less than
      `last` is also a postfix token there and gives the operand back unchanged. */
  function Climb(left: Tree, last: nat, tokens: seq<Token>): (r: Parse)
    ensures r.Some? ==> |r.value.1| <= |tokens|
    ensures r.Some? && AtOperator(tokens) && Precedence(tokens[0].op) >= last ==> |r.value.1| < |tokens|
    decreases |tokens|, 2
  {
    if GoesBeyond(tokens) then None
    else if AtOperator(tokens) && Precedence(tokens[0].op) >= last then
      var op := tokens[0].op;
      if MakesPointer(op, tokens[1..]) then None else
      var right := Operand(op, tokens[1..]);
      if right.None? then None else Climb(Binary(op, left, right.value.0), last, right.value.1)
    else Some((left, tokens))
  }

  /** The right operand of `op`: a primary and every operator after it that binds tighter. */
  function Operand(op: BinOp, tokens: seq<Token>): (r: Parse)
    ensures r.Some? ==> |r.value.1| < |tokens|
    decreases |tokens|, 3
  {
    var first := Primary(tokens);
    if first.None? then None else Tighter(first.value.0, Precedence(op), first.value.1)
  }

  /** The inner loop.  A `*` that binds no tighter is looked at once more as a postfix token, and the
      operand comes back unchanged. */
  function Tighter(right: Tree, p: nat, tokens: seq<Token>): (r: Parse)
    ensures r.Some? ==> |r.value.1| <= |tokens|
    decreases |tokens|, 3
  {
    if GoesBeyond(tokens) then None
    else if AtOperator(tokens) && Precedence(tokens[0].op) > p then
      var more := Climb(right, p + 1, tokens);
      if more.None? then None else Tighter(more.value.0, p, more.value.1)
    else Some((right, tokens))
  }

  // ---- the printer -------------------------------------------------------------------------------

  /** The tokens of a tree where operators that bind less than `level` need parentheses: the minimal
      parentheses the table of precedences implies. */
  function Print(e: Tree, level: nat): seq<Token>
    decreases e, 1
  {
    if e.Binary? && Precedence(e.op) < level then [Open] + Bare(e) + [Close] else Bare(e)
  }

  function Bare(e: Tree): seq<Token>
    decreases e, 0
  {
    match e
    case Literal(n) => [Number(n)]
    case Ident(s) => [Name(s)]
    case Negate(x) => [Operator(Minus)] + Print(x, PREFIX)
    case Binary(op, l, r) => Print(l, Precedence(op)) + [Operator(op)] + Print(r, Precedence(op) + 1)
  }

  // ---- printing, then parsing --------------------------------------------------------------------

  /** What follows does not bind tighter than `level` and stays within the model. */
  predicate Loose(rest: seq<Token>, level: nat) {
    !GoesBeyond(rest) && (AtOperator(rest) ==> Precedence(rest[0].op) <= level)
  }

  /** The tree is printed as a run of operators, not as a single primary. */
  predicate IsRun(e: Tree, level: nat) {
    e.Binary? && Precedence(e.op) >= level
  }

  /** A printed tree starts like a primary, so a `*` before it is a multiplication. */
  lemma {:induction false} FirstToken(e: Tree, level: nat, rest: seq<Token>)
    ensures !MakesPointer(Times, Print(e, level) + rest)
    decreases e
  {
    if IsRun(e, level) {
      var p := Precedence(e.op);
      var tail := [Operator(e.op)] + Print(e.right, p + 1) + rest;
      assert Print(e, level) + rest == Print(e.left, p) + tail;
      FirstToken(e.left, p, tail);
    }
  }

  /** A primary printed is read back by `Primary`. */
  lemma {:induction false} PrimaryPrinted(e: Tree, level: nat, rest: seq<Token>)
    requires !IsRun(e, level) && !GoesBeyond(rest)
    ensures Primary(Print(e, level) + rest) == Some((e, rest))
    decreases e, 1
  {
    match e
    case Literal(n) =>
      assert Print(e, level) == [Number(n)];
      assert ([Number(n)] + rest)[1..] == rest;
    case Ident(s) =>
      assert Print(e, level) == [Name(s)];
      assert ([Name(s)] + rest)[1..] == rest;
    case Negate(x) =>
      assert Print(e, level) == [Operator(Minus)] + Print(x, PREFIX);
      assert (Print(e, level) + rest)[1..] == Print(x, PREFIX) + rest;
      ExpressionPrinted(x, PREFIX, PREFIX, rest);
    case Binary(_, _, _) =>
      assert Print(e, level) == [Open] + Print(e, 0) + [Close];
      assert (Print(e, level) + rest)[1..] == Print(e, 0) + ([Close] + rest);
      ExpressionPrinted(e, 0, 0, [Close] + rest);
      assert ([Close] + rest)[1..] == rest;
  }

  /** A tree printed is read back as the left operand of whatever follows. */
  lemma {:induction false} ExpressionPrinted(e: Tree, level: nat, last: nat, rest: seq<Token>)
    requires last <= level && Loose(rest, level)
    ensures Expression(last, Print(e, level) + rest) == Climb(e, last, rest)
    decreases e, if IsRun(e, level) then 0 else 2
  {
    if IsRun(e, level) {
      var p := Precedence(e.op);
      var tail := [Operator(e.op)] + Print(e.right, p + 1) + rest;
      assert Print(e, level) + rest == Print(e.left, p) + tail;
      ExpressionPrinted(e.left, p, last, tail);
      assert tail[1..] == Print(e.right, p + 1) + rest;
      FirstToken(e.right, p + 1, rest);
      OperandPrinted(e.op, e.right, rest);
    } else {
      PrimaryPrinted(e, level, rest);
    }
  }

  /** One round of the inner loop is enough when what follows it does not bind tighter. */
  lemma TighterOnce(right: Tree, p: nat, tokens: seq<Token>)
    requires AtOperator(tokens) && Precedence(tokens[0].op) > p
    ensures var more := Climb(right, p + 1, tokens);
            more.Some? && Loose(more.value.1, p) ==> Tighter(right, p, tokens) == more
  {
  }

  /** A right operand is read back whole and no further. */
  lemma {:induction false} OperandPrinted(op: BinOp, r: Tree, rest: seq<Token>)
    requires Loose(rest, Precedence(op))
    ensures Operand(op, Print(r, Precedence(op) + 1) + rest) == Some((r, rest))
    decreases r, 3
  {
    var p := Precedence(op);
    var tokens := Print(r, p + 1) + rest;
    if IsRun(r, p + 1) {
      var first := RunStarts(r, p + 1, rest);
      ExpressionPrinted(r, p + 1, p + 1, rest);
      assert Climb(first.0, p + 1, first.1) == Expression(p + 1, tokens) == Some((r, rest));
      TighterOnce(first.0, p, first.1);
    } else {
      PrimaryPrinted(r, p + 1, rest);
    }
  }

  /** A run starts with a primary and an operator that binds at least as tight as the run. */
  lemma {:induction false} RunStarts(e: Tree, level: nat, rest: seq<Token>) returns (first: (Tree, seq<Token>))
    requires IsRun(e, level) && !GoesBeyond(rest)
    ensures Primary(Print(e, level) + rest) == Some(first)
    ensures AtOperator(first.1) && Precedence(first.1[0].op) >= level
    decreases e, 2
  {
    var p := Precedence(e.op);
    var tail := [Operator(e.op)] + Print(e.right, p + 1) + rest;
    assert Print(e, level) + rest == Print(e.left, p) + tail;
    if IsRun(e.left, p) {
      first := RunStarts(e.left, p, tail);
    } else {
      PrimaryPrinted(e.left, p, tail);
      first := (e.left, tail);
    }
  }

  /** Any tree, printed with the minimal parentheses, parses back to itself and leaves what follows. */
  lemma PrintThenParse(e: Tree, rest: seq<Token>)
    requires !GoesBeyond(rest) && !AtOperator(rest)
    ensures Expression(0, Print(e, 0) + rest) == Some((e, rest))
  {
    ExpressionPrinted(e, 0, 0, rest);
  }

  /** So no two trees are printed alike. */
  lemma PrintIsInjective(d: Tree, e: Tree)
    requires Print(d, 0) == Print(e, 0)
    ensures d == e
  {
    PrintThenParse(d, []);
    PrintThenParse(e, []);
  }

  // ---- parsing, then printing --------------------------------------------------------------------

  predicate NoParentheses(tokens: seq<Token>) {
    forall t :: t in tokens ==> !t.Open?
  }

  /** The tokens before `rest` are the printed tree, without outer parentheses at `level`. */
  predicate PrintedAs(e: Tree, level: nat, tokens: seq<Token>, rest: seq<Token>) {
    Print(e, level) == Bare(e) && tokens == Bare(e) + rest
  }

  /** What follows a left operand does not bind tighter than it. */
  predicate Follows(left: Tree, tokens: seq<Token>) {
    left.Binary? ==> Loose(tokens, Precedence(left.op))
  }

  lemma TailHasNone(tokens: seq<Token>)
    requires NoParentheses(tokens) && tokens != []
    ensures NoParentheses(tokens[1..])
  {
  }

  lemma {:induction false} PrimaryReads(tokens: seq<Token>)
    requires NoParentheses(tokens) && Primary(tokens).Some?
    ensures var (e, rest) := Primary(tokens).value;
            !e.Binary? && tokens == Bare(e) + rest && NoParentheses(rest)
    decreases |tokens|, 0
  {
    var (e, rest) := Primary(tokens).value;
    TailHasNone(tokens);
    match tokens[0]
    case Number(n) => assert tokens == [tokens[0]] + tokens[1..];
    case Name(s) => assert tokens == [tokens[0]] + tokens[1..];
    case Operator(_) =>
      ExpressionReads(PREFIX, tokens[1..]);
      assert tokens == [tokens[0]] + tokens[1..];
      assert tokens == Bare(e) + rest;
  }

  lemma {:induction false} ExpressionReads(last: nat, tokens: seq<Token>)
    requires NoParentheses(tokens) && Expression(last, tokens).Some?
    ensures var (e, rest) := Expression(last, tokens).value;
            PrintedAs(e, last, tokens, rest) && NoParentheses(rest) && Loose(rest, if last == 0 then 0 else last - 1)
    decreases |tokens|, 3
  {
    PrimaryReads(tokens);
    var (first, rest) := Primary(tokens).value;
    ClimbReads(first, last, Bare(first), rest);
  }

  /** `before` are the tokens of the left operand. */
  lemma {:induction false} ClimbReads(left: Tree, last: nat, before: seq<Token>, tokens: seq<Token>)
    requires NoParentheses(tokens) && Climb(left, last, tokens).Some?
    requires before == Bare(left) && Print(left, last) == Bare(left) && Follows(left, tokens)
    ensures var (e, rest) := Climb(left, last, tokens).value;
            PrintedAs(e, last, before + tokens, rest) && NoParentheses(rest) && Loose(rest, if last == 0 then 0 else last - 1)
    decreases |tokens|, 2
  {
    if AtOperator(tokens) && Precedence(tokens[0].op) >= last {
      var op := tokens[0].op;
      TailHasNone(tokens);
      OperandReads(op, tokens[1..]);
      var (r, rest) := Operand(op, tokens[1..]).value;
      var next := Binary(op, left, r);
      assert tokens == [tokens[0]] + tokens[1..];
      assert before + tokens == Bare(next) + rest;
      ClimbReads(next, last, Bare(next), rest);
    }
  }

  lemma {:induction false} OperandReads(op: BinOp, tokens: seq<Token>)
    requires NoParentheses(tokens) && Operand(op, tokens).Some?
    ensures var (r, rest) := Operand(op, tokens).value;
            PrintedAs(r, Precedence(op) + 1, tokens, rest) && NoParentheses(rest) && Loose(rest, Precedence(op))
    decreases |tokens|, 3
  {
    var p := Precedence(op);
    PrimaryReads(tokens);
    var (first, t) := Primary(tokens).value;
    if AtOperator(t) && Precedence(t[0].op) > p {
      ClimbReads(first, p + 1, Bare(first), t);
      TighterOnce(first, p, t);
    }
  }

  /** Tokens without parentheses are exactly what the tree they parse to is printed as: the printer
      adds parentheses only where the table makes them necessary. */
  lemma ParseThenPrint(tokens: seq<Token>)
    requires NoParentheses(tokens) && Expression(0, tokens).Some?
    ensures var (e, rest) := Expression(0, tokens).value; Print(e, 0) + rest == tokens
  {
    ExpressionReads(0, tokens);
  }

  // ---- which operator binds first ----------------------------------------------------------------

  /** The operators from the loosest to the tightest; those of one class group to the left. */
  datatype Class = Assigning | Disjoining | Conjoining | OringBits | XoringBits | AndingBits | Equating | Ordering | Summing | Multiplying

  function ClassOf(op: BinOp): Class {
    match op
    case Or => Disjoining
    case And => Conjoining
    case BitOr => OringBits
    case BitXor => XoringBits
    case BitAnd => AndingBits
    case Equals => Equating
    case NotEquals => Equating
    case Less => Ordering
    case Greater => Ordering
    case LessEqual => Ordering
    case GreaterEqual => Ordering
    case Plus => Summing
    case Minus => Summing
    case Times => Multiplying
    case Divide => Multiplying
    case Percent => Multiplying
    case _ => Assigning
  }

  const CLASSES := [Assigning, Disjoining, Conjoining, OringBits, XoringBits, AndingBits, Equating, Ordering, Summing, Multiplying]

  /** `p` comes before `q` in the list of classes. */
  predicate BindsLess(p: BinOp, q: BinOp) {
    exists i, j :: 0 <= i < j < |CLASSES| && CLASSES[i] == ClassOf(p) && CLASSES[j] == ClassOf(q)
  }

  /** The stratified grammar: a left operand binds at least as tight as its operator, a right operand
      tighter, and prefix minus has a primary. */
  predicate Grouped(e: Tree) {
    match e
    case Literal(_) => true
    case Ident(_) => true
    case Negate(x) => !x.Binary? && Grouped(x)
    case Binary(op, l, r) =>
      && Grouped(l) && Grouped(r)
      && (l.Binary? ==> !BindsLess(l.op, op))
      && (r.Binary? ==> BindsLess(op, r.op))
  }

  /** The tokens of a tree from left to right. */
  function Tokens(e: Tree): seq<Token> {
    match e
    case Literal(n) => [Number(n)]
    case Ident(s) => [Name(s)]
    case Negate(x) => [Operator(Minus)] + Tokens(x)
    case Binary(op, l, r) => Tokens(l) + [Operator(op)] + Tokens(r)
  }

  function Rank(op: BinOp): nat {
    match ClassOf(op)
    case Assigning => 0
    case Disjoining => 1
    case Conjoining => 2
    case OringBits => 3
    case XoringBits => 4
    case AndingBits => 5
    case Equating => 6
    case Ordering => 7
    case Summing => 8
    case Multiplying => 9
  }

  lemma RankIsPlace(op: BinOp)
    ensures Rank(op) < |CLASSES| && forall i :: 0 <= i < |CLASSES| ==> (CLASSES[i] == ClassOf(op) <==> i == Rank(op))
  {
  }

  lemma RankIsPrecedence(p: BinOp, q: BinOp)
    ensures Rank(p) < Rank(q) <==> Precedence(p) < Precedence(q)
  {
  }

  /** The table of precedences is the order of the classes. */
  lemma TableOrdersClasses(p: BinOp, q: BinOp)
    ensures BindsLess(p, q) <==> Precedence(p) < Precedence(q)
  {
    RankIsPlace(p);
    RankIsPlace(q);
    RankIsPrecedence(p, q);
    hide Precedence, ClassOf, Rank;
    if Precedence(p) < Precedence(q) {
      assert CLASSES[Rank(p)] == ClassOf(p) && CLASSES[Rank(q)] == ClassOf(q);
    }
  }

  lemma {:induction false} GroupedIsBare(e: Tree)
    requires Grouped(e)
    ensures Bare(e) == Tokens(e)
    decreases e
  {
    hide Precedence, BindsLess;
    match e
    case Negate(x) => GroupedIsBare(x);
    case Binary(op, l, r) =>
      GroupedIsBare(l);
      GroupedIsBare(r);
      if l.Binary? {
        TableOrdersClasses(l.op, op);
      }
      if r.Binary? {
        TableOrdersClasses(op, r.op);
      }
    case _ =>
  }

  lemma {:induction false} BareIsGrouped(e: Tree)
    requires NoParentheses(Bare(e))
    ensures Grouped(e)
    decreases e
  {
    hide Precedence, BindsLess;
    match e
    case Negate(x) =>
      PartHasNone([Operator(Minus)], Print(x, PREFIX), []);
      NoneOutside(x, PREFIX);
      BareIsGrouped(x);
    case Binary(op, l, r) =>
      var p := Precedence(op);
      PartHasNone([], Print(l, p), [Operator(op)] + Print(r, p + 1));
      PartHasNone(Print(l, p) + [Operator(op)], Print(r, p + 1), []);
      NoneOutside(l, p);
      NoneOutside(r, p + 1);
      BareIsGrouped(l);
      BareIsGrouped(r);
      if l.Binary? {
        TableOrdersClasses(l.op, op);
      }
      if r.Binary? {
        TableOrdersClasses(op, r.op);
      }
    case _ =>
  }

  lemma PartHasNone(before: seq<Token>, part: seq<Token>, after: seq<Token>)
    requires NoParentheses(before + part + after) || NoParentheses(before + part) || NoParentheses(part + after)
    ensures NoParentheses(part)
  {
    assert forall t :: t in part ==> t in before + part && t in part + after && t in before + part + after;
  }

  lemma NoneOutside(e: Tree, level: nat)
    requires NoParentheses(Print(e, level))
    ensures Print(e, level) == Bare(e) && (e.Binary? ==> Precedence(e.op) >= level)
  {
    if e.Binary? && Precedence(e.op) < level {
      assert Print(e, level)[0] == Open;
    }
  }

  /** Tokens without parentheses are parsed to the tree that groups them by classes. */
  lemma ParsesByClasses(tokens: seq<Token>)
    requires NoParentheses(tokens) && Expression(0, tokens).Some?
    ensures var (e, rest) := Expression(0, tokens).value; Grouped(e) && Tokens(e) + rest == tokens
  {
    hide Expression, Grouped;
    ParseThenPrint(tokens);
    var (e, rest) := Expression(0, tokens).value;
    PartHasNone([], Print(e, 0), rest);
    NoneOutside(e, 0);
    BareIsGrouped(e);
    GroupedIsBare(e);
  }

  /** And every tree that groups its tokens by classes is what they are parsed to. */
  lemma GroupingIsParsed(e: Tree, rest: seq<Token>)
    requires Grouped(e) && !GoesBeyond(rest) && !AtOperator(rest)
    ensures Expression(0, Tokens(e) + rest) == Some((e, rest))
  {
    hide Expression, Grouped;
    PrintThenParse(e, rest);
    GroupedIsBare(e);
    NoLoosest(e);
  }

  lemma NoLoosest(e: Tree)
    ensures Print(e, 0) == Bare(e)
  {
  }

  /** So there is one such tree for any tokens. */
  lemma OneGrouping(d: Tree, e: Tree)
    requires Grouped(d) && Grouped(e) && Tokens(d) == Tokens(e)
    ensures d == e
  {
    GroupingIsParsed(d, []);
    GroupingIsParsed(e, []);
  }

  /** Two operators between three primaries: the second takes the middle one exactly when it binds tighter. */
  lemma TwoOperators(a: Tree, p: BinOp, b: Tree, q: BinOp, c: Tree, rest: seq<Token>)
    requires !a.Binary? && !b.Binary? && !c.Binary? && Grouped(a) && Grouped(b) && Grouped(c)
    requires !GoesBeyond(rest) && !AtOperator(rest)
    ensures Expression(0, Tokens(a) + [Operator(p)] + Tokens(b) + [Operator(q)] + Tokens(c) + rest)
            == Some((if BindsLess(p, q) then Binary(p, a, Binary(q, b, c)) else Binary(q, Binary(p, a, b), c), rest))
  {
    hide Expression, BindsLess;
    var e := if BindsLess(p, q) then Binary(p, a, Binary(q, b, c)) else Binary(q, Binary(p, a, b), c);
    assert Tokens(e) == Tokens(a) + [Operator(p)] + Tokens(b) + [Operator(q)] + Tokens(c);
    GroupingIsParsed(e, rest);
  }

  /** Prefix minus takes the next primary and nothing more. */
  lemma MinusTakesPrimary(a: Tree, p: BinOp, b: Tree, rest: seq<Token>)
    requires !a.Binary? && !b.Binary? && Grouped(a) && Grouped(b) && !GoesBeyond(rest) && !AtOperator(rest)
    ensures Expression(0, [Operator(Minus)] + Tokens(a) + [Operator(p)] + Tokens(b) + rest) == Some((Binary(p, Negate(a), b), rest))
  {
    hide Expression, BindsLess;
    var e := Binary(p, Negate(a), b);
    assert Tokens(e) == [Operator(Minus)] + Tokens(a) + [Operator(p)] + Tokens(b);
    GroupingIsParsed(e, rest);
  }

  // ---- the parser as the program runs it ---------------------------------------------------------

  class TokenReader {
    var remaining: seq<Token>

    constructor (tokens: seq<Token>)
      ensures remaining == tokens
    {
      remaining := tokens;
    }

    /** `tokens` parsed as the function says: the same tree and the same tokens left, or no tree. */
    ghost predicate Did(parse: Parse, r: Option<Tree>)
      reads this
    {
      r.Some? == parse.Some? && (r.Some? ==> (r.value, remaining) == parse.value)
    }

    method ParsePrimary() returns (r: Option<Tree>)
      modifies this
      ensures Did(Primary(old(remaining)), r)
      decreases |remaining|, 0
    {
      r := None;
      if remaining != [] {
        var token := remaining[0];
        match token {
          case Number(n) =>
            r, remaining := Some(Literal(n)), remaining[1..];
          case Name(s) =>
            r, remaining := Some(Ident(s)), remaining[1..];
          case Open =>
            remaining := remaining[1..];
            r := ParseExpression(0);
            if r.Some? {
              if remaining == [] || !remaining[0].Close? {
                r := None;
              } else {
                remaining := remaining[1..];
              }
            }
          case Operator(Minus) =>
            remaining := remaining[1..];
            r := ParseExpression(PREFIX);
            if r.Some? {
              r := Some(Negate(r.value));
            }
          case _ =>
        }
      }
    }

    method ParseExpression(last: nat) returns (r: Option<Tree>)
      modifies this
      ensures Did(Expression(last, old(remaining)), r)
      decreases |remaining|, 2
    {
      r := ParsePrimary();
      if r.Some? {
        r := ParseFrom(r.value, last);
      }
    }

    /** The climb from a left operand on: an outer loop over operators and an inner loop that lets
        tighter ones take the right operand first. */
    method ParseFrom(start: Tree, last: nat) returns (r: Option<Tree>)
      modifies this
      ensures Did(Climb(start, last, old(remaining)), r)
      decreases |remaining|, 1
    {
      var left := start;
      while !GoesBeyond(remaining) && AtOperator(remaining) && Precedence(remaining[0].op) >= last
        invariant |remaining| <= |old(remaining)|
        invariant Climb(left, last, remaining) == Climb(start, last, old(remaining))
        decreases |remaining|
      {
        var op := remaining[0].op;
        remaining := remaining[1..];
        if MakesPointer(op, remaining) {
          return None;
        }
        var first := ParsePrimary();
        if first.None? {
          return None;
        }
        var right := first.value;
        ghost var after := remaining;
        while !GoesBeyond(remaining) && AtOperator(remaining) && Precedence(remaining[0].op) > Precedence(op)
          invariant |remaining| <= |after|
          invariant Tighter(right, Precedence(op), remaining) == Tighter(first.value, Precedence(op), after)
          decreases |remaining|
        {
          var more := ParseFrom(right, Precedence(op) + 1);
          if more.None? {
            return None;
          }
          right := more.value;
        }
        if GoesBeyond(remaining) {
          return None;
        }
        left := Binary(op, left, right);
      }
      if GoesBeyond(remaining) {
        return None;
      }
      return Some(left);
    }
  }
}
