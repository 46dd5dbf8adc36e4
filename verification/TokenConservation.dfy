/**
 * What infix_to_postfix does with strings of any shape, well-formed or not: no token is lost,
 * invented or turned, and how high the operator stack can grow.
 */
module TokenConservation {
  import opened ShuntingYard

  /** The operands of a text in their order. */
  function Operands(s: string): string {
    if s == [] then [] else (if IsOperand(s[0]) then [s[0]] else []) + Operands(s[1..])
  }

  lemma {:induction false} OperandsConcat(a: string, b: string)
    ensures Operands(a + b) == Operands(a) + Operands(b)
  {
    if a == [] {
      assert a + b == b && Operands(a) == [];
    } else {
      OperandsConcat(a[1..], b);
      assert (a + b)[0] == a[0] && (a + b)[1..] == a[1..] + b;
      var head := if IsOperand(a[0]) then [a[0]] else [];
      assert head + (Operands(a[1..]) + Operands(b)) == (head + Operands(a[1..])) + Operands(b);
    }
  }

  predicate NoOperands(s: string) { forall k | 0 <= k < |s| :: !IsOperand(s[k]) }

  lemma {:induction false} OperandsNone(s: string)
    requires NoOperands(s)
    ensures Operands(s) == []
  {
    if s != [] { OperandsNone(s[1..]); }
  }

  /** How often t occurs in s. */
  function Occurs(s: string, t: char): nat {
    if s == [] then 0 else Occurs(s[..|s| - 1], t) + (if s[|s| - 1] == t then 1 else 0)
  }

  lemma {:induction false} OccursConcat(a: string, b: string, t: char)
    ensures Occurs(a + b, t) == Occurs(a, t) + Occurs(b, t)
  {
    if b == [] {
      assert a + b == a;
    } else {
      OccursConcat(a, b[..|b| - 1], t);
      assert (a + b)[..|a + b| - 1] == a + b[..|b| - 1];
    }
  }

  lemma OccursOne(c: char, t: char)
    ensures Occurs([c], t) == if c == t then 1 else 0
  {
    assert [c][..0] == [];
  }

  lemma {:induction false} OccursMember(s: string, t: char)
    ensures Occurs(s, t) > 0 <==> t in s
    ensures Occurs(s, t) == multiset(s)[t]
  {
    if s != [] {
      OccursMember(s[..|s| - 1], t);
      assert s == s[..|s| - 1] + [s[|s| - 1]];
    }
  }

  lemma {:induction false} OccursReverse(s: string, t: char)
    ensures Occurs(Reverse(s), t) == Occurs(s, t)
  {
    if s != [] {
      OccursReverse(s[..|s| - 1], t);
      OccursConcat([s[|s| - 1]], Reverse(s[..|s| - 1]), t);
      OccursOne(s[|s| - 1], t);
    }
  }

  lemma {:induction false} OccursClosed(stack: string, t: char)
    ensures Occurs(stack, t) == Occurs(Closed(stack), t) + Occurs(BelowParen(stack), t)
                                + (if t == '(' && '(' in stack then 1 else 0)
    ensures '(' !in Closed(stack)
  {
    if stack != [] {
      var init, last := stack[..|stack| - 1], stack[|stack| - 1];
      assert stack == init + [last];
      if last != '(' {
        OccursClosed(init, t);
        OccursConcat([last], Closed(init), t);
        OccursOne(last, t);
      }
    }
  }

  lemma {:induction false} ReverseMembers(s: string)
    ensures forall c | c in Reverse(s) :: c in s
  {
    if s != [] { ReverseMembers(s[..|s| - 1]); }
  }

  lemma {:induction false} ClosedMembers(stack: string)
    ensures forall c | c in Closed(stack) :: c in stack
  {
    if stack != [] && stack[|stack| - 1] != '(' { ClosedMembers(stack[..|stack| - 1]); }
  }

  lemma {:induction false} PoppedMembers(stack: string, op: char)
    ensures forall c | c in Popped(stack, op) :: c in stack && (IsOperator(op) ==> c != '(')
  {
    if stack != [] && Precedence(op) <= Precedence(stack[|stack| - 1]) { PoppedMembers(stack[..|stack| - 1], op); }
  }

  lemma {:induction false} OccursPopped(stack: string, op: char, t: char)
    ensures Occurs(stack, t) == Occurs(Popped(stack, op), t) + Occurs(Keep(stack, op), t)
  {
    if stack != [] && Precedence(op) <= Precedence(stack[|stack| - 1]) {
      var init, last := stack[..|stack| - 1], stack[|stack| - 1];
      OccursPopped(init, op, t);
      OccursConcat([last], Popped(init, op), t);
      OccursOne(last, t);
    }
  }

  lemma NoOperandsIn(s: string, t: string)
    requires NoOperands(t) && forall c | c in s :: c in t
    ensures NoOperands(s)
  {
    forall k | 0 <= k < |s| ensures !IsOperand(s[k]) {
      assert s[k] in t;
    }
  }

  /** Operands are written in the order they are read, whatever surrounds them. */
  lemma {:induction false} OperandsInOrder(stack: string, input: string)
    requires NoOperands(stack)
    ensures Operands(Translate(stack, input)) == Operands(input)
    decreases |input|
  {
    if input == [] {
      ReverseMembers(stack);
      NoOperandsIn(Reverse(stack), stack);
      OperandsNone(Reverse(stack));
    } else {
      var c, rest := input[0], input[1..];
      if IsOperand(c) {
        OperandsInOrder(stack, rest);
        OperandsConcat([c], Translate(stack, rest));
        assert Operands([c]) == [c];
      } else if c == '(' {
        OperandsInOrder(stack + [c], rest);
      } else if c == ')' {
        ClosedMembers(stack);
        NoOperandsIn(Closed(stack), stack);
        NoOperandsIn(BelowParen(stack), stack);
        OperandsNone(Closed(stack));
        OperandsInOrder(BelowParen(stack), rest);
        OperandsConcat(Closed(stack), Translate(BelowParen(stack), rest));
      } else {
        PoppedMembers(stack, c);
        NoOperandsIn(Popped(stack, c), stack);
        OperandsNone(Popped(stack, c));
        OperandsInOrder(Keep(stack, c) + [c], rest);
        OperandsConcat(Popped(stack, c), Translate(Keep(stack, c) + [c], rest));
      }
    }
  }

  /** How many of the open parentheses, d to begin with, are never closed. */
  function Unclosed(d: nat, input: string): nat
    decreases |input|
  {
    if input == [] then d
    else if input[0] == '(' then Unclosed(d + 1, input[1..])
    else if input[0] == ')' then Unclosed(if d > 0 then d - 1 else 0, input[1..])
    else Unclosed(d, input[1..])
  }

  /** The characters of a text other than parentheses. */
  function Tokens(s: string): multiset<char> {
    multiset(s)['(' := 0][')' := 0]
  }

  /** How often t occurs in the output of Translate(stack, input). */
  function Expected(stack: string, input: string, t: char): int {
    if t == '(' then Unclosed(Occurs(stack, '('), input)
    else if t == ')' then 0
    else Occurs(stack, t) + Occurs(input, t)
  }

  lemma ExpectedCons(stack: string, c: char, rest: string, t: char)
    ensures Expected(stack, [c] + rest, t) ==
            if t == '(' then
              var d := Occurs(stack, '(');
              Unclosed(if c == '(' then d + 1 else if c == ')' then (if d > 0 then d - 1 else 0) else d, rest)
            else if t == ')' then 0
            else Occurs(stack, t) + (if c == t then 1 else 0) + Occurs(rest, t)
  {
    assert ([c] + rest)[1..] == rest;
    OccursConcat([c], rest, t);
    OccursOne(c, t);
  }

  lemma CloseOccurs(stack: string, t: char)
    requires ')' !in stack
    ensures Occurs(Closed(stack), t) + Occurs(BelowParen(stack), t) ==
            Occurs(stack, t) - (if t == '(' && Occurs(stack, t) > 0 then 1 else 0)
    ensures t == '(' || t == ')' ==> Occurs(Closed(stack), t) == 0
  {
    OccursClosed(stack, t);
    OccursMember(stack, t);
    OccursMember(Closed(stack), t);
    ClosedMembers(stack);
  }

  /** A closing parenthesis writes the operators above the innermost open one and drops that one. */
  lemma CloseConserved(stack: string, rest: string, t: char)
    requires ')' !in stack
    ensures Expected(stack, [')'] + rest, t) == Occurs(Closed(stack), t) + Expected(BelowParen(stack), rest, t)
  {
    ExpectedCons(stack, ')', rest, t);
    CloseOccurs(stack, t);
  }

  lemma KeepOccurs(stack: string, c: char, t: char)
    requires ')' !in stack && IsOperator(c)
    ensures Occurs(Popped(stack, c), t) + Occurs(Keep(stack, c) + [c], t)
            == Occurs(stack, t) + (if c == t then 1 else 0)
    ensures IsParen(t) ==> Occurs(Popped(stack, c), t) == 0
  {
    OccursPopped(stack, c, t);
    OccursConcat(Keep(stack, c), [c], t);
    OccursOne(c, t);
    PoppedMembers(stack, c);
    OccursMember(Popped(stack, c), t);
  }

  /** An operator writes what it pops; an open parenthesis is never popped by it. */
  lemma OperatorConserved(stack: string, c: char, rest: string, t: char)
    requires ')' !in stack && IsOperator(c)
    ensures Expected(stack, [c] + rest, t) == Occurs(Popped(stack, c), t) + Expected(Keep(stack, c) + [c], rest, t)
  {
    ExpectedCons(stack, c, rest, t);
    KeepOccurs(stack, c, t);
  }

  /** Every token comes out as often as it went in, and so do the unclosed open parentheses. */
  lemma {:induction false} TokensConserved(stack: string, input: string, t: char)
    requires ')' !in stack
    ensures Occurs(Translate(stack, input), t) == Expected(stack, input, t)
    decreases |input|
  {
    if input == [] {
      OccursReverse(stack, t);
      OccursMember(stack, t);
    } else {
      var c, rest := input[0], input[1..];
      assert input == [c] + rest;
      if IsOperand(c) {
        TokensConserved(stack, rest, t);
        ExpectedCons(stack, c, rest, t);
        OccursConcat([c], Translate(stack, rest), t);
        OccursOne(c, t);
      } else if c == '(' {
        TokensConserved(stack + [c], rest, t);
        ExpectedCons(stack, c, rest, t);
        OccursConcat(stack, [c], t);
        OccursOne(c, t);
      } else if c == ')' {
        CloseConserved(stack, rest, t);
        TokensConserved(BelowParen(stack), rest, t);
        OccursConcat(Closed(stack), Translate(BelowParen(stack), rest), t);
      } else {
        var kept := Keep(stack, c);
        OperatorConserved(stack, c, rest, t);
        TokensConserved(kept + [c], rest, t);
        OccursConcat(Popped(stack, c), Translate(kept + [c], rest), t);
      }
    }
  }

  lemma MultisetSize(m: multiset<char>, p: nat, q: nat, u: nat)
    requires m['('] == p && m[')'] == q
    ensures |m['(' := 0][')' := 0]['(' := u]| == |m| - p - q + u
  {
  }

  /** No token is lost or invented; only the unclosed open parentheses are written out. */
  lemma OutputTokens(input: string)
    ensures multiset(Translate([], input)) == Tokens(input)['(' := Unclosed(0, input)]
  {
    var out := Translate([], input);
    forall t: char ensures multiset(out)[t] == Tokens(input)['(' := Unclosed(0, input)][t] {
      TokensConserved([], input, t);
      OccursMember(out, t);
      OccursMember(input, t);
    }
  }

  /**
   * For every string: no token is lost or invented; parentheses disappear, except that the open
   * ones that are never closed are written out.
   */
  lemma Conservation(input: string)
    ensures var out := Translate([], input);
            && multiset(out) == Tokens(input)['(' := Unclosed(0, input)]
            && Operands(out) == Operands(input)
            && |out| == |input| - multiset(input)['('] - multiset(input)[')'] + Unclosed(0, input)
            && ((forall c | c in out :: !IsParen(c)) <==> Unclosed(0, input) == 0)
  {
    OperandsInOrder([], input);
    OutputTokens(input);
    var out := Translate([], input);
    MultisetSize(multiset(input), multiset(input)['('], multiset(input)[')'], Unclosed(0, input));
    assert |multiset(out)| == |out| && |multiset(input)| == |input|;
    assert '(' in out <==> '(' in multiset(out);
    assert ')' in out <==> ')' in multiset(out);
  }

  // ----- the operator stack

  /** The stack after reading a piece of input. */
  function StackAfter(stack: string, input: string): string
    decreases |input|
  {
    if input == [] then stack else StackAfter(StackStep(stack, input[0]), input[1..])
  }

  /** From each open parenthesis upward the precedences strictly increase. */
  predicate Increasing(stack: string) {
    && (forall k | 0 <= k < |stack| :: !IsOperand(stack[k]) && stack[k] != ')')
    && (forall k | 0 < k < |stack| && stack[k] != '(' :: Precedence(stack[k - 1]) < Precedence(stack[k]))
  }

  /** Every input keeps the order, and the stack never exceeds the tokens read. */
  lemma {:induction false} StackIncreases(stack: string, input: string)
    requires Increasing(stack)
    ensures Increasing(StackAfter(stack, input)) && |StackAfter(stack, input)| <= |stack| + |input|
    decreases |input|
  {
    if input != [] {
      StackIncreases(StackStep(stack, input[0]), input[1..]);
    }
  }

  /** There are three precedences, so the height is bounded by the open parentheses alone. */
  lemma {:induction false} HeightBound(stack: string)
    requires Increasing(stack)
    ensures |stack| <= 4 * Occurs(stack, '(') + (if stack == [] then 0 else Precedence(stack[|stack| - 1]))
  {
    if stack != [] {
      HeightBound(stack[..|stack| - 1]);
    }
  }

  /** However long the input, its operator stack is at most three higher than four times its nesting. */
  lemma OperatorStackBound(input: string)
    ensures Increasing(StackAfter([], input))
    ensures |StackAfter([], input)| <= |input|
    ensures |StackAfter([], input)| <= 4 * Occurs(StackAfter([], input), '(') + 3
  {
    StackIncreases([], input);
    HeightBound(StackAfter([], input));
  }
}
