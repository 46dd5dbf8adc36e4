/**
 * The infix-to-postfix translation of array_operations.c as a function of the operator stack and
 * the rest of the input, and what it means: the output is the postorder of the expression tree.
 */
module ShuntingYard {

  /** isalnum in the C locale. */
  predicate IsOperand(c: char) {
    '0' <= c <= '9' || 'A' <= c <= 'Z' || 'a' <= c <= 'z'
  }

  predicate IsParen(c: char) { c == '(' || c == ')' }

  /** Every other character is treated as a binary operator. */
  predicate IsOperator(c: char) { !IsOperand(c) && !IsParen(c) }

  function Precedence(c: char): nat {
    if c == '(' then 0
    else if c == '+' || c == '-' then 1
    else if c == '*' || c == '/' || c == '%' then 2
    else 3
  }

  /** What is left on the stack after the loop of line 87 for an operator; the top is at the end. */
  function Keep(stack: string, op: char): (r: string)
    ensures r <= stack
    ensures r == [] || Precedence(r[|r| - 1]) < Precedence(op)
    ensures forall k | |r| <= k < |stack| :: Precedence(op) <= Precedence(stack[k])
  {
    if stack == [] || Precedence(stack[|stack| - 1]) < Precedence(op) then stack
    else Keep(stack[..|stack| - 1], op)
  }

  /** What that loop writes. */
  function Popped(stack: string, op: char): string {
    if stack == [] || Precedence(stack[|stack| - 1]) < Precedence(op) then []
    else [stack[|stack| - 1]] + Popped(stack[..|stack| - 1], op)
  }

  /** What is below the innermost open parenthesis; everything goes if there is none (line 83). */
  function BelowParen(stack: string): (r: string)
    ensures r <= stack && (stack != [] ==> r < stack)
  {
    if stack == [] then []
    else if stack[|stack| - 1] == '(' then stack[..|stack| - 1]
    else BelowParen(stack[..|stack| - 1])
  }

  function Reverse(s: string): (r: string)
    ensures |r| == |s|
  {
    if s == [] then [] else [s[|s| - 1]] + Reverse(s[..|s| - 1])
  }

  /** What a closing parenthesis writes: the stack down to the innermost open parenthesis. */
  function Closed(stack: string): string {
    if stack == [] || stack[|stack| - 1] == '(' then []
    else [stack[|stack| - 1]] + Closed(stack[..|stack| - 1])
  }

  /** Everything written from here on, with this stack and this input still to come. */
  function Translate(stack: string, input: string): string
    decreases |input|
  {
    if input == [] then Reverse(stack)
    else
      var c, rest := input[0], input[1..];
      if IsOperand(c) then [c] + Translate(stack, rest)
      else if c == '(' then Translate(stack + [c], rest)
      else if c == ')' then Closed(stack) + Translate(BelowParen(stack), rest)
      else Popped(stack, c) + Translate(Keep(stack, c) + [c], rest)
  }

  /** The stack after one more character, and what reading it writes. */
  function StackStep(stack: string, c: char): string {
    if IsOperand(c) then stack
    else if c == '(' then stack + [c]
    else if c == ')' then BelowParen(stack)
    else Keep(stack, c) + [c]
  }

  function Writes(stack: string, c: char): string {
    if IsOperand(c) then [c]
    else if c == '(' then []
    else if c == ')' then Closed(stack)
    else Popped(stack, c)
  }

  lemma TranslateStep(stack: string, input: string)
    requires input != []
    ensures Translate(stack, input) == Writes(stack, input[0]) + Translate(StackStep(stack, input[0]), input[1..])
  {
  }

  // ----- expressions

  datatype Expr = Leaf(c: char) | Node(op: char, left: Expr, right: Expr)

  function Postorder(e: Expr): string {
    match e
    case Leaf(c) => [c]
    case Node(op, l, r) => Postorder(l) + Postorder(r) + [op]
  }

  /** An infix text with its parentheses, needed or redundant. */
  datatype Infix = Operand(c: char) | Binary(op: char, left: Infix, right: Infix) | Parens(inner: Infix)

  function Text(x: Infix): string {
    match x
    case Operand(c) => [c]
    case Binary(op, l, r) => Text(l) + [op] + Text(r)
    case Parens(y) => ['('] + Text(y) + [')']
  }

  function Tree(x: Infix): Expr {
    match x
    case Operand(c) => Leaf(c)
    case Binary(op, l, r) => Node(op, Tree(l), Tree(r))
    case Parens(y) => Tree(y)
  }

  // The grammar of legal texts, with the characters named and without the function `Precedence`

  /** A letter or a digit, by its ASCII code. */
  predicate Alphanumeric(c: char) {
    48 <= c as int <= 57 || 65 <= c as int <= 90 || 97 <= c as int <= 122
  }

  /** An operand, or a text in parentheses. */
  predicate Atom(x: Infix)
    decreases x, 0
  {
    match x
    case Operand(c) => Alphanumeric(c)
    case Parens(y) => Legal(y)
    case Binary(_, _, _) => false
  }

  /** Atoms joined by operators other than + - * / %, grouped to the left. */
  predicate Tight(x: Infix)
    decreases x, 1
  {
    Atom(x) || (x.Binary? && !Alphanumeric(x.op) && x.op !in "()+-*/%" && Tight(x.left) && Atom(x.right))
  }

  /** Such texts joined by * / %, grouped to the left. */
  predicate Product(x: Infix)
    decreases x, 2
  {
    Tight(x) || (x.Binary? && x.op in "*/%" && Product(x.left) && Tight(x.right))
  }

  /** Products joined by + -, grouped to the left. */
  predicate Legal(x: Infix)
    decreases x, 3
  {
    Product(x) || (x.Binary? && x.op in "+-" && Legal(x.left) && Product(x.right))
  }

  /** The precedence of the outermost operator; operands and parentheses bind tighter than any. */
  function Level(x: Infix): nat {
    if x.Binary? then Precedence(x.op) else 4
  }

  /** A text whose operands are bare only if their own operator binds tightly enough for the code. */
  predicate Layered(x: Infix) {
    match x
    case Operand(c) => IsOperand(c)
    case Binary(op, l, r) =>
      && IsOperator(op) && Layered(l) && Layered(r)
      && Precedence(op) <= Level(l) && Precedence(op) < Level(r)
    case Parens(y) => Layered(y)
  }

  /** The precedences of the code are those of the grammar. */
  lemma {:induction false} GrammarIsLayered(x: Infix)
    ensures Atom(x) <==> Layered(x) && Level(x) == 4
    ensures Tight(x) <==> Layered(x) && Level(x) >= 3
    ensures Product(x) <==> Layered(x) && Level(x) >= 2
    ensures Legal(x) <==> Layered(x)
  {
    match x
    case Operand(c) =>
    case Parens(y) => GrammarIsLayered(y);
    case Binary(op, l, r) => GrammarIsLayered(l); GrammarIsLayered(r);
    assert Atom(x) <==> Layered(x) && Level(x) == 4;
    assert Tight(x) <==> Layered(x) && Level(x) >= 3;
    assert Product(x) <==> Layered(x) && Level(x) >= 2;
  }

  // ----- the translation writes the postorder

  /** Nothing on the stack can be popped by an operator of the given level or above. */
  predicate Guarded(stack: string, level: nat) {
    stack == [] || Precedence(stack[|stack| - 1]) < level
  }

  /** The input ends, closes a parenthesis or goes on with an operator of at most this level. */
  predicate Closes(rest: string, level: nat) {
    rest == [] || rest[0] == ')' || (IsOperator(rest[0]) && Precedence(rest[0]) <= level)
  }

  /** An operator on top of the stack is written as soon as something that closes it comes. */
  lemma PopsTop(stack: string, op: char, rest: string)
    requires IsOperator(op) && Closes(rest, Precedence(op))
    ensures Translate(stack + [op], rest) == [op] + Translate(stack, rest)
  {
  }

  lemma EntersParens(stack: string, rest: string)
    ensures Translate(stack, ['('] + rest) == Translate(stack + ['('], rest)
    ensures Translate(stack + ['('], [')'] + rest) == Translate(stack, rest)
  {
    assert (['('] + rest)[1..] == rest && ([')'] + rest)[1..] == rest;
    var full := stack + ['('];
    assert full[..|full| - 1] == stack;
  }

  lemma PushesOperator(stack: string, op: char, rest: string)
    requires IsOperator(op) && Guarded(stack, Precedence(op))
    ensures Translate(stack, [op] + rest) == Translate(stack + [op], rest)
  {
  }

  lemma Regroup(a: string, b: string, c: string, d: string)
    ensures (a + b + c) + d == a + (b + (c + d))
  {
  }

  /** Such a text is translated to the postorder of its tree, between any context that leaves it alone. */
  lemma {:induction false} TranslatesText(x: Infix, stack: string, rest: string)
    requires Layered(x) && Guarded(stack, Level(x)) && Closes(rest, Level(x))
    ensures Translate(stack, Text(x) + rest) == Postorder(Tree(x)) + Translate(stack, rest)
    decreases x
  {
    match x
    case Operand(c) =>
      assert ([c] + rest)[1..] == rest;
    case Parens(y) =>
      TranslatesParens(y, stack, rest);
    case Binary(op, l, r) =>
      TranslatesBinary(op, l, r, stack, rest);
  }

  lemma {:induction false} TranslatesParens(y: Infix, stack: string, rest: string)
    requires Layered(y)
    ensures Translate(stack, Text(Parens(y)) + rest) == Postorder(Tree(y)) + Translate(stack, rest)
    decreases Parens(y), 0
  {
    var inner := Text(y) + ([')'] + rest);
    assert Text(Parens(y)) + rest == ['('] + inner;
    EntersParens(stack, inner);
    TranslatesText(y, stack + ['('], [')'] + rest);
    EntersParens(stack, rest);
  }

  lemma {:induction false} TranslatesBinary(op: char, l: Infix, r: Infix, stack: string, rest: string)
    requires Layered(Binary(op, l, r)) && Guarded(stack, Precedence(op)) && Closes(rest, Precedence(op))
    ensures Translate(stack, Text(Binary(op, l, r)) + rest)
         == Postorder(Tree(Binary(op, l, r))) + Translate(stack, rest)
    decreases Binary(op, l, r), 0
  {
    var tail := Text(r) + rest;
    Regroup(Text(l), [op], Text(r), rest);
    TranslatesText(l, stack, [op] + tail);
    PushesOperator(stack, op, tail);
    TranslatesText(r, stack + [op], rest);
    PopsTop(stack, op, rest);
    Regroup(Postorder(Tree(l)), Postorder(Tree(r)), [op], Translate(stack, rest));
  }

  /** infix_to_postfix writes exactly the postorder, for every tree and every legal parenthesisation. */
  lemma TranslationIsPostorder(x: Infix)
    requires Legal(x)
    ensures Translate([], Text(x)) == Postorder(Tree(x))
  {
    GrammarIsLayered(x);
    TranslatesText(x, [], []);
    assert Text(x) + [] == Text(x);
    assert Postorder(Tree(x)) + Translate([], []) == Postorder(Tree(x));
  }

  // ----- every tree has a legal text

  predicate WellFormed(e: Expr) {
    match e
    case Leaf(c) => Alphanumeric(c)
    case Node(op, l, r) => !Alphanumeric(op) && op !in "()" && WellFormed(l) && WellFormed(r)
  }

  function Wrap(x: Infix, needed: bool): Infix {
    if needed then Parens(x) else x
  }

  /** The rendering with the necessary parentheses only. */
  function Render(e: Expr): Infix {
    match e
    case Leaf(c) => Operand(c)
    case Node(op, l, r) =>
      var x, y := Render(l), Render(r);
      Binary(op, Wrap(x, Level(x) < Precedence(op)), Wrap(y, Level(y) <= Precedence(op)))
  }

  lemma {:induction false} RenderIsLayered(e: Expr)
    requires WellFormed(e)
    ensures Layered(Render(e)) && Tree(Render(e)) == e
  {
    if e.Node? {
      RenderIsLayered(e.left);
      RenderIsLayered(e.right);
    }
  }

  lemma RenderIsLegal(e: Expr)
    requires WellFormed(e)
    ensures Legal(Render(e)) && Tree(Render(e)) == e
  {
    RenderIsLayered(e);
    GrammarIsLayered(Render(e));
  }

  // ----- evaluating the output

  /** A postfix evaluator over a stack of values; None is a stack underflow. */
  datatype Values<V> = Underflow | Stack(items: seq<V>)

  function Evaluate<V>(postfix: string, items: seq<V>, operand: char -> V, apply: (char, V, V) -> V): Values<V>
    decreases |postfix|
  {
    if postfix == [] then Stack(items)
    else
      var c, rest, n := postfix[0], postfix[1..], |items|;
      if Alphanumeric(c) then Evaluate(rest, items + [operand(c)], operand, apply)
      else if n < 2 then Underflow
      else Evaluate(rest, items[..n - 2] + [apply(c, items[n - 2], items[n - 1])], operand, apply)
  }

  function Meaning<V>(e: Expr, operand: char -> V, apply: (char, V, V) -> V): V {
    match e
    case Leaf(c) => operand(c)
    case Node(op, l, r) => apply(op, Meaning(l, operand, apply), Meaning(r, operand, apply))
  }

  lemma {:induction false} EvaluatesPostorder<V>(e: Expr, rest: string, items: seq<V>,
                                                 operand: char -> V, apply: (char, V, V) -> V)
    requires WellFormed(e)
    ensures Evaluate(Postorder(e) + rest, items, operand, apply)
         == Evaluate(rest, items + [Meaning(e, operand, apply)], operand, apply)
    decreases e
  {
    match e
    case Leaf(c) =>
      assert ([c] + rest)[1..] == rest;
    case Node(op, l, r) =>
      var a, b := Meaning(l, operand, apply), Meaning(r, operand, apply);
      var tail := [op] + rest;
      assert Postorder(e) + rest == Postorder(l) + (Postorder(r) + tail);
      EvaluatesPostorder(l, Postorder(r) + tail, items, operand, apply);
      EvaluatesPostorder(r, tail, items + [a], operand, apply);
      var full := items + [a] + [b];
      assert tail[1..] == rest && full[..|full| - 2] == items;
  }

  lemma {:induction false} TreeIsWellFormed(x: Infix)
    requires Layered(x)
    ensures WellFormed(Tree(x))
  {
    match x
    case Operand(c) =>
    case Parens(y) => TreeIsWellFormed(y);
    case Binary(op, l, r) => TreeIsWellFormed(l); TreeIsWellFormed(r);
  }

  /** Whatever the operators mean, evaluating the translation gives the value of the expression. */
  lemma TranslationPreservesMeaning<V>(x: Infix, operand: char -> V, apply: (char, V, V) -> V)
    requires Legal(x)
    ensures Evaluate(Translate([], Text(x)), [], operand, apply) == Stack([Meaning(Tree(x), operand, apply)])
  {
    TranslationIsPostorder(x);
    GrammarIsLayered(x);
    TreeIsWellFormed(x);
    EvaluatesPostorder(Tree(x), [], [], operand, apply);
    assert Postorder(Tree(x)) + [] == Postorder(Tree(x));
  }

  /** Read back as a tree builder, the evaluator recovers the tree from its postorder. */
  lemma {:induction false} Rebuild(e: Expr)
    ensures Meaning(e, (c: char) => Leaf(c), (op: char, a: Expr, b: Expr) => Node(op, a, b)) == e
  {
    if e.Node? {
      Rebuild(e.left);
      Rebuild(e.right);
    }
  }

  /** Two legal texts have the same translation if and only if they denote the same tree. */
  lemma SameOutputIffSameTree(x: Infix, y: Infix)
    requires Legal(x) && Legal(y)
    ensures Translate([], Text(x)) == Translate([], Text(y)) <==> Tree(x) == Tree(y)
  {
    TranslationIsPostorder(x);
    TranslationIsPostorder(y);
    TranslationPreservesMeaning(x, (c: char) => Leaf(c), (op: char, a: Expr, b: Expr) => Node(op, a, b));
    TranslationPreservesMeaning(y, (c: char) => Leaf(c), (op: char, a: Expr, b: Expr) => Node(op, a, b));
    Rebuild(Tree(x));
    Rebuild(Tree(y));
  }

  /** A text never denotes two trees. */
  lemma Unambiguous(x: Infix, y: Infix)
    requires Legal(x) && Legal(y) && Text(x) == Text(y)
    ensures Tree(x) == Tree(y)
  {
    SameOutputIffSameTree(x, y);
  }
}
