/** The array stack and `infix_to_postfix` of array_operations.c, working on arrays in place. */
module Translator {
  import opened ShuntingYard
  import opened TokenConservation

  const N := 500
  const MAXSIZE := 102
  const OK := 0
  const ERR_LENGTH := -1

  /** Conversion of an int to a signed char. */
  function ToChar(x: int): int { (x + 128) % 256 - 128 }

  /** The character with this code. */
  function Glyph(code: int): char { (code % 256) as char }

  class Stack {
    const data: array<int>
    var top: int

    ghost predicate Valid()
      reads this
    {
      data.Length == N && -1 <= top < MAXSIZE
    }

    ghost function Contents(): seq<int>
      requires Valid()
      reads this, data
    {
      data[..top + 1]
    }

    /** A local stack before init: its fields hold anything. */
    constructor ()
      ensures fresh(data) && data.Length == N
    {
      data := new int[N];
      top := *;
    }

    method Init()
      requires data.Length == N
      modifies this`top
      ensures Valid() && Contents() == []
    {
      top := -1;
    }

    method Empty() returns (rc: int)
      requires Valid()
      ensures rc == if Contents() == [] then -1 else 0
    {
      rc := if top == -1 then ERR_LENGTH else OK;
    }

    method Push(x: int) returns (rc: int)
      requires Valid()
      modifies this`top, data
      ensures Valid()
      ensures rc == if |old(Contents())| < 102 then 0 else -1
      ensures Contents() == if rc == 0 then old(Contents()) + [x] else old(Contents())
    {
      if top >= MAXSIZE - 1 { return ERR_LENGTH; }
      top := top + 1;
      data[top] := x;
      return OK;
    }

    method Pop() returns (x: int)
      requires Valid()
      modifies this`top
      ensures Valid()
      ensures old(Contents()) == [] ==> x == -1 && Contents() == []
      ensures old(Contents()) != [] ==> old(Contents()) == Contents() + [x]
    {
      if top == -1 { return ERR_LENGTH; }
      x := data[top];
      top := top - 1;
    }

    /** On an empty stack this reads the word in front of `data`: any value may come back. */
    method Top() returns (x: int)
      requires Valid()
      ensures Contents() != [] ==> x == Contents()[|Contents()| - 1]
    {
      if top == -1 { x := *; } else { x := data[top]; }
    }
  }

  /** Characters that are positive as signed char: ASCII without the terminator. */
  predicate Ascii(s: string) { forall k | 0 <= k < |s| :: 0 < s[k] as int < 128 }

  /** The stack holds the codes of these characters. */
  ghost predicate Holds(s: Stack, pending: string)
    reads s, s.data
  {
    && s.Valid() && Ascii(pending) && |pending| == s.top + 1
    && forall k | 0 <= k < |pending| :: s.data[k] == pending[k] as int
  }

  method PushChar(s: Stack, ghost pending: string, c: char)
    requires Holds(s, pending) && Ascii([c]) && |pending| < 101
    modifies s, s.data
    ensures Holds(s, pending + [c])
  {
    ghost var before := s.Contents();
    assert forall k | 0 <= k < |pending| :: before[k] == pending[k] as int;
    var rc := s.Push(c as int);
    assert rc == OK;
    assert [c][0] == c;
    assert forall k | 0 <= k <= |pending| :: s.data[k] == s.Contents()[k];
  }

  method PopChar(s: Stack, ghost pending: string) returns (x: int)
    requires Holds(s, pending)
    modifies s
    ensures pending == [] ==> x == -1 && Holds(s, [])
    ensures pending != [] ==> 0 < x < 128 && Glyph(x) == pending[|pending| - 1] && Holds(s, pending[..|pending| - 1])
  {
    ghost var before := s.Contents();
    var v := s.Pop();
    x := ToChar(v);
    if pending != [] {
      assert before[|pending| - 1] == v == pending[|pending| - 1] as int;
    }
  }

  /** Both tests of line 87: the top is read before the stack is known not to be empty. */
  method TopAndEmpty(s: Stack, ghost pending: string) returns (t: int, e: int)
    requires Holds(s, pending)
    ensures e == if pending == [] then ERR_LENGTH else OK
    ensures pending != [] ==> Glyph(t) == pending[|pending| - 1]
  {
    t := s.Top();
    e := s.Empty();
    if pending != [] {
      assert t == s.data[|pending| - 1];
    }
  }

  method Emit(postfix: array<char>, j: nat, x: int, ghost written: string) returns (next: nat)
    requires j < postfix.Length && postfix[..j] == written
    modifies postfix
    ensures next == j + 1 && postfix[..next] == written + [Glyph(x)]
  {
    postfix[j] := Glyph(x);
    next := j + 1;
  }

  lemma Shift(a: string, c: char, rest: string, t: string)
    requires t == [c] + rest
    ensures a + t == (a + [c]) + rest
  {
  }

  /** Line 83: pop and write down to the innermost open parenthesis, or to the bottom. */
  method CloseParen(s: Stack, ghost stack: string, postfix: array<char>, j: nat, ghost written: string)
    returns (next: nat)
    requires Holds(s, stack) && j + |stack| < postfix.Length && postfix[..j] == written
    modifies s, postfix
    ensures Holds(s, BelowParen(stack))
    ensures next + |BelowParen(stack)| <= j + |stack| && postfix[..next] == written + Closed(stack)
  {
    next := j;
    ghost var full, out := stack, written;
    var x := PopChar(s, full);
    while x != '(' as int && x > 0
      invariant if full == [] then x == -1 && Holds(s, [])
                else 0 < x < 128 && Glyph(x) == full[|full| - 1] && Holds(s, full[..|full| - 1])
      invariant next + |full| <= j + |stack| && postfix[..next] == out
      invariant BelowParen(full) == BelowParen(stack) && out + Closed(full) == written + Closed(stack)
      decreases |full|
    {
      next := Emit(postfix, next, x, out);
      Shift(out, Glyph(x), Closed(full[..|full| - 1]), Closed(full));
      out, full := out + [Glyph(x)], full[..|full| - 1];
      x := PopChar(s, full);
    }
    assert Closed(full) == [] && out + [] == out;
  }

  /** Lines 87-92: operators of the same or a higher precedence are popped and written first. */
  method PushOperator(s: Stack, ghost stack: string, token: char, postfix: array<char>, j: nat, ghost written: string)
    returns (next: nat)
    requires Holds(s, stack) && j + |stack| < postfix.Length && postfix[..j] == written
    requires |stack| < MAXSIZE - 1 && Ascii([token])
    modifies s, s.data, postfix
    ensures Holds(s, Keep(stack, token) + [token])
    ensures next + |Keep(stack, token)| <= j + |stack| && postfix[..next] == written + Popped(stack, token)
  {
    next := j;
    ghost var left, out := stack, written;
    var t, e := TopAndEmpty(s, left);
    while Precedence(token) <= Precedence(Glyph(t)) && e == OK
      invariant Holds(s, left) && e == (if left == [] then ERR_LENGTH else OK)
      invariant left != [] ==> Glyph(t) == left[|left| - 1]
      invariant next + |left| <= j + |stack| && |left| <= |stack| && postfix[..next] == out
      invariant Keep(left, token) == Keep(stack, token)
      invariant out + Popped(left, token) == written + Popped(stack, token)
      decreases |left|
    {
      ghost var init := left[..|left| - 1];
      var x := PopChar(s, left);
      next := Emit(postfix, next, x, out);
      Shift(out, Glyph(x), Popped(init, token), Popped(left, token));
      out, left := out + [Glyph(x)], init;
      t, e := TopAndEmpty(s, left);
    }
    assert left == Keep(stack, token) && out + [] == out;
    PushChar(s, left, token);
  }

  /** The four branches of lines 76-93. */
  method TakeToken(s: Stack, ghost pending: string, token: char, postfix: array<char>, j: nat, ghost written: string)
    returns (next: nat)
    requires Holds(s, pending) && j + |pending| + 1 < postfix.Length && postfix[..j] == written
    requires |pending| < MAXSIZE - 1 && Ascii([token])
    modifies s, s.data, postfix
    ensures Holds(s, StackStep(pending, token))
    ensures next + |StackStep(pending, token)| <= j + |pending| + 1
    ensures postfix[..next] == written + Writes(pending, token)
  {
    if IsOperand(token) {
      next := Emit(postfix, j, token as int, written);
    } else if token == '(' {
      PushChar(s, pending, '(');
      next := j;
      assert written + [] == written;
    } else if token == ')' {
      next := CloseParen(s, pending, postfix, j, written);
    } else {
      next := PushOperator(s, pending, token, postfix, j, written);
    }
  }

  /** Lines 96-102: what is left on the stack is written. */
  method Flush(s: Stack, ghost stack: string, postfix: array<char>, j: nat, ghost written: string)
    returns (next: nat)
    requires Holds(s, stack) && j + |stack| < postfix.Length && postfix[..j] == written
    modifies s, postfix
    ensures next == j + |stack| && postfix[..next] == written + Reverse(stack)
  {
    next := j;
    ghost var left, out := stack, written;
    var e := s.Empty();
    while e == OK
      invariant Holds(s, left) && e == if left == [] then ERR_LENGTH else OK
      invariant next + |left| == j + |stack| && postfix[..next] == out
      invariant out + Reverse(left) == written + Reverse(stack)
      decreases |left|
    {
      var x := PopChar(s, left);
      if x < 0 { break; }
      next := Emit(postfix, next, x, out);
      Shift(out, Glyph(x), Reverse(left[..|left| - 1]), Reverse(left));
      out, left := out + [Glyph(x)], left[..|left| - 1];
      e := s.Empty();
    }
    assert out + [] == out;
  }

  /** The text in front of the terminator. */
  ghost predicate Terminated(infix: seq<char>, n: nat) {
    n < |infix| && infix[n] == '\0' && Ascii(infix[..n])
  }

  /** What has been written and what is still to come make up the whole translation. */
  ghost predicate Progress(text: string, i: nat, pending: string, out: string) {
    i <= |text| && out + Translate(pending, text[i..]) == Translate([], text)
  }

  lemma ProgressStart(text: string)
    ensures Progress(text, 0, [], [])
  {
    assert text[0..] == text && [] + Translate([], text) == Translate([], text);
  }

  lemma ProgressStep(text: string, i: nat, pending: string, out: string)
    requires Progress(text, i, pending, out) && i < |text|
    ensures Progress(text, i + 1, StackStep(pending, text[i]), out + Writes(pending, text[i]))
  {
    var rest := text[i..];
    assert rest[0] == text[i] && rest[1..] == text[i + 1..];
    TranslateStep(pending, rest);
    var w, t := Writes(pending, text[i]), Translate(StackStep(pending, text[i]), text[i + 1..]);
    assert out + (w + t) == (out + w) + t;
  }

  /** The body of the loop of lines 73-94, for the character at i. */
  method ReadToken(s: Stack, ghost text: string, ghost i: nat, ghost pending: string, token: char,
                   postfix: array<char>, j: nat, ghost written: string)
    returns (next: nat, ghost left: string, ghost out: string)
    requires Holds(s, pending) && j + |pending| + 1 < postfix.Length && postfix[..j] == written
    requires |pending| < MAXSIZE - 1 && Ascii([token])
    requires Progress(text, i, pending, written) && i < |text| && text[i] == token
    modifies s, s.data, postfix
    ensures Holds(s, left) && next + |left| <= j + |pending| + 1 && postfix[..next] == out
    ensures Progress(text, i + 1, left, out)
  {
    ProgressStep(text, i, pending, written);
    left, out := StackStep(pending, token), written + Writes(pending, token);
    next := TakeToken(s, pending, token, postfix, j, written);
  }

  /** Lines 73-94: the whole text goes through the stack. */
  method ReadText(s: Stack, infix: array<char>, postfix: array<char>, ghost n: nat, ghost text: string)
    returns (j: nat, ghost pending: string, ghost out: string)
    requires Terminated(infix[..], n) && text == infix[..n] && n < MAXSIZE && n + 1 < postfix.Length
    requires Holds(s, []) && infix != postfix
    modifies s, s.data, postfix
    ensures Holds(s, pending) && j + |pending| <= n && postfix[..j] == out && Progress(text, n, pending, out)
  {
    var i := 0;
    j, pending, out := 0, [], [];
    ProgressStart(text);
    while infix[i] != '\0'
      invariant infix[..] == old(infix[..])
      invariant 0 <= i <= n && j + |pending| <= i
      invariant Holds(s, pending) && postfix[..j] == out && Progress(text, i, pending, out)
      decreases n - i
    {
      var token := infix[i];
      assert token == text[i] && Ascii([token]);
      j, pending, out := ReadToken(s, text, i, pending, token, postfix, j, out);
      i := i + 1;
    }
  }

  /**
   * infix_to_postfix on a NUL-terminated ASCII text shorter than MAXSIZE, which is what its caller
   * checks: the pushes never fail, the buffer is long enough, and the output is the translation.
   */
  method InfixToPostfix(infix: array<char>, postfix: array<char>, ghost n: nat)
    requires Terminated(infix[..], n) && n < 102 && postfix.Length == 500 && infix != postfix
    modifies postfix
    ensures var out := Translate([], infix[..n]);
            |out| <= n && postfix[..|out|] == out && postfix[|out|] == '\0'
  {
    var s := new Stack();
    s.Init();
    ghost var text, pending, out := infix[..n], "", "";
    var j;
    j, pending, out := ReadText(s, infix, postfix, n, text);
    j := Flush(s, pending, postfix, j, out);
    assert text[n..] == [];
    postfix[j] := '\0';
  }
}
