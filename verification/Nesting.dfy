/**
 * What parentheses do in any string, matched or not: a closed pair is translated on its own, an
 * unmatched closing one ends the expression before it, an unmatched opening one is written out.
 */
module Nesting {
  import opened ShuntingYard
  import opened TokenConservation

  /** What reading a piece of input writes. */
  function Written(stack: string, input: string): string
    decreases |input|
  {
    if input == [] then [] else Writes(stack, input[0]) + Written(StackStep(stack, input[0]), input[1..])
  }

  lemma {:induction false} Split(stack: string, a: string, b: string)
    ensures Translate(stack, a + b) == Written(stack, a) + Translate(StackAfter(stack, a), b)
    decreases |a|
  {
    if a == [] {
      assert a + b == b;
    } else {
      assert (a + b)[0] == a[0] && (a + b)[1..] == a[1..] + b;
      TranslateStep(stack, a + b);
      Split(StackStep(stack, a[0]), a[1..], b);
    }
  }

  /** The whole output: what was written on the way, and then the stack. */
  lemma SplitEnd(stack: string, a: string)
    ensures Translate(stack, a) == Written(stack, a) + Reverse(StackAfter(stack, a))
  {
    Split(stack, a, []);
    assert a + [] == a;
  }

  /** With d open parentheses before it, the text closes none but these and its own. */
  predicate Nested(d: nat, input: string)
    decreases |input|
  {
    input == [] ||
    (if input[0] == '(' then Nested(d + 1, input[1..])
     else if input[0] == ')' then d > 0 && Nested(d - 1, input[1..])
     else Nested(d, input[1..]))
  }

  // ----- nothing reaches below an open parenthesis

  /** Only one prefix of the stack can be left when an operator has popped what binds as tightly. */
  lemma KeepUnique(stack: string, op: char, r: string)
    requires r <= stack && (r == [] || Precedence(r[|r| - 1]) < Precedence(op))
    requires forall k | |r| <= k < |stack| :: Precedence(op) <= Precedence(stack[k])
    ensures Keep(stack, op) == r
  {
    var kept := Keep(stack, op);
    assert r != [] ==> stack[|r| - 1] == r[|r| - 1];
    assert kept != [] ==> stack[|kept| - 1] == kept[|kept| - 1];
  }

  /** The rest is written from the top down. */
  lemma {:induction false} PoppedIsRest(stack: string, op: char)
    ensures Popped(stack, op) == Reverse(stack[|Keep(stack, op)|..])
  {
    var kept := Keep(stack, op);
    if |kept| < |stack| {
      var init, rest := stack[..|stack| - 1], stack[|kept|..];
      PoppedIsRest(init, op);
      assert rest[..|rest| - 1] == init[|kept|..];
    }
  }

  lemma ClosesOne(stack: string, top: char, full: string)
    requires full == stack + [top]
    ensures BelowParen(full) == if top == '(' then stack else BelowParen(stack)
    ensures Closed(full) == if top == '(' then [] else [top] + Closed(stack)
    ensures Reverse(full) == [top] + Reverse(stack)
  {
    assert full[..|full| - 1] == stack;
  }

  /** The bottom of a stack, up to an open parenthesis. */
  predicate Floor(floor: string) { floor != [] && floor[|floor| - 1] == '(' }

  lemma KeepFrame(floor: string, stack: string, op: char)
    requires Floor(floor) && IsOperator(op)
    ensures Keep(floor + stack, op) == floor + Keep(stack, op) && Popped(floor + stack, op) == Popped(stack, op)
  {
    var kept := Keep(stack, op);
    KeepUnique(floor + stack, op, floor + kept);
    PoppedIsRest(floor + stack, op);
    PoppedIsRest(stack, op);
    assert (floor + stack)[|floor + kept|..] == stack[|kept|..];
  }

  lemma {:induction false} CloseFrame(floor: string, stack: string)
    requires Floor(floor) && '(' in stack
    ensures BelowParen(floor + stack) == floor + BelowParen(stack) && Closed(floor + stack) == Closed(stack)
  {
    var init, top := stack[..|stack| - 1], stack[|stack| - 1];
    assert stack == init + [top];
    ClosesOne(init, top, stack);
    ClosesOne(floor + init, top, floor + stack);
    if top != '(' { CloseFrame(floor, init); }
  }

  /** A closing parenthesis with none open above the floor writes all that is there. */
  lemma {:induction false} CloseAll(floor: string, stack: string)
    requires '(' !in stack && (floor == [] || Floor(floor))
    ensures BelowParen(floor + stack) == if floor == [] then [] else floor[..|floor| - 1]
    ensures Closed(floor + stack) == Reverse(stack)
  {
    if stack == [] {
      assert floor + stack == floor;
    } else {
      var init, top := stack[..|stack| - 1], stack[|stack| - 1];
      assert stack == init + [top];
      CloseAll(floor, init);
      ClosesOne(init, top, stack);
      ClosesOne(floor + init, top, floor + stack);
    }
  }

  lemma StepFrame(floor: string, stack: string, c: char)
    requires Floor(floor) && (c == ')' ==> '(' in stack)
    ensures StackStep(floor + stack, c) == floor + StackStep(stack, c)
    ensures Writes(floor + stack, c) == Writes(stack, c)
  {
    if c == ')' { CloseFrame(floor, stack); } else if IsOperator(c) { KeepFrame(floor, stack, c); }
  }

  /** Open parentheses on the stack after one more character. */
  lemma StepOpen(stack: string, c: char)
    ensures Occurs(StackStep(stack, c), '(') ==
            var d := Occurs(stack, '('); if c == '(' then d + 1 else if c == ')' && d > 0 then d - 1 else d
  {
    if c == '(' {
      OccursConcat(stack, [c], '(');
      OccursOne(c, '(');
    } else if c == ')' {
      OccursClosed(stack, '(');
      OccursMember(Closed(stack), '(');
      OccursMember(stack, '(');
    } else if IsOperator(c) {
      OccursPopped(stack, c, '(');
      PoppedMembers(stack, c);
      OccursMember(Popped(stack, c), '(');
      OccursConcat(Keep(stack, c), [c], '(');
      OccursOne(c, '(');
    }
  }

  lemma {:induction false} OpenAfter(stack: string, input: string)
    ensures Occurs(StackAfter(stack, input), '(') == Unclosed(Occurs(stack, '('), input)
    decreases |input|
  {
    if input != [] {
      StepOpen(stack, input[0]);
      OpenAfter(StackStep(stack, input[0]), input[1..]);
    }
  }

  lemma {:induction false} Frame(floor: string, stack: string, input: string)
    requires Floor(floor) && Nested(Occurs(stack, '('), input)
    ensures StackAfter(floor + stack, input) == floor + StackAfter(stack, input)
    ensures Written(floor + stack, input) == Written(stack, input)
    decreases |input|
  {
    if input != [] {
      OccursMember(stack, '(');
      StepFrame(floor, stack, input[0]);
      StepOpen(stack, input[0]);
      Frame(floor, StackStep(stack, input[0]), input[1..]);
    }
  }

  lemma {:induction false} ReverseAt(s: string, k: nat)
    requires k < |s|
    ensures Reverse(s)[k] == s[|s| - 1 - k]
  {
    if k > 0 { ReverseAt(s[..|s| - 1], k - 1); }
  }

  lemma ReverseConcat(a: string, b: string)
    ensures Reverse(a + b) == Reverse(b) + Reverse(a)
  {
    forall k | 0 <= k < |a + b| ensures Reverse(a + b)[k] == (Reverse(b) + Reverse(a))[k] {
      ReverseAt(a + b, k);
      if k < |b| { ReverseAt(b, k); } else { ReverseAt(a, k - |b|); }
    }
  }

  lemma ClosesPair(floor: string, left: string, rest: string)
    requires '(' !in left && (floor == [] || Floor(floor))
    ensures Translate(floor + left, [')'] + rest)
         == Reverse(left) + Translate(if floor == [] then [] else floor[..|floor| - 1], rest)
  {
    var tail := [')'] + rest;
    assert tail[1..] == rest;
    CloseAll(floor, left);
    TranslateStep(floor + left, tail);
  }

  lemma NothingOpen(input: string)
    requires Unclosed(0, input) == 0
    ensures '(' !in StackAfter([], input)
  {
    OpenAfter([], input);
    OccursMember(StackAfter([], input), '(');
  }

  lemma FrameEmpty(stack: string, inner: string, rest: string)
    requires Nested(0, inner)
    ensures Translate(stack, ['('] + (inner + rest))
         == Written([], inner) + Translate(stack + ['('] + StackAfter([], inner), rest)
  {
    EntersParens(stack, inner + rest);
    Split(stack + ['('], inner, rest);
    Frame(stack + ['('], [], inner);
    assert stack + ['('] + [] == stack + ['('];
  }

  lemma Regroup3(a: string, b: string, c: string)
    ensures (a + b) + c == a + (b + c)
  {
  }

  // ----- the laws

  /** Between matching parentheses any text is translated on its own, wherever the pair stands. */
  lemma PairAlone(stack: string, inner: string, rest: string)
    requires Nested(0, inner) && Unclosed(0, inner) == 0
    ensures Translate(stack, ['('] + (inner + ([')'] + rest))) == Translate([], inner) + Translate(stack, rest)
  {
    var left, floor := StackAfter([], inner), stack + ['('];
    FrameEmpty(stack, inner, [')'] + rest);
    NothingOpen(inner);
    ClosesPair(floor, left, rest);
    assert floor[..|floor| - 1] == stack;
    SplitEnd([], inner);
    Regroup3(Written([], inner), Reverse(left), Translate(stack, rest));
  }

  /** An unmatched closing parenthesis ends the expression: what follows is translated afresh. */
  lemma UnmatchedClose(before: string, rest: string)
    requires Unclosed(0, before) == 0
    ensures Translate([], before + ([')'] + rest)) == Translate([], before) + Translate([], rest)
  {
    var left := StackAfter([], before);
    Split([], before, [')'] + rest);
    NothingOpen(before);
    ClosesPair([], left, rest);
    assert [] + left == left;
    SplitEnd([], before);
    Regroup3(Written([], before), Reverse(left), Translate([], rest));
  }

  lemma ReverseAround(a: string, b: string)
    ensures Reverse(a + ['('] + b) == Reverse(b) + (['('] + Reverse(a))
  {
    ReverseConcat(a + ['('], b);
    ClosesOne(a, '(', a + ['(']);
  }

  /** The text behind an unmatched opening one is translated on its own, in the middle of the output before it. */
  lemma UnmatchedOpen(before: string, rest: string) returns (k: nat)
    requires Nested(0, rest)
    ensures var out := Translate([], before);
            && k <= |out|
            && Translate([], before + (['('] + rest)) == out[..k] + (Translate([], rest) + (['('] + out[k..]))
  {
    var left, w, r := StackAfter([], before), Written([], before), Written([], rest);
    k := |w|;
    SplitEnd([], before);
    Split([], before, ['('] + rest);
    assert rest + [] == rest;
    FrameEmpty(left, rest, []);
    ReverseAround(left, StackAfter([], rest));
    SplitEnd([], rest);
    Regroup3(r, Reverse(StackAfter([], rest)), ['('] + Reverse(left));
    assert (w + Reverse(left))[..k] == w && (w + Reverse(left))[k..] == Reverse(left);
  }
}
