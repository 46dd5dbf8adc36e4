/**
 * With overlapping bodies of get_number the two loads of lines 45 and 46 really can disagree so far
 * that the running maximum falls: the second one finds a ticket given back in between.
 */
module BakeryTorn {
  import opened BakeryLock
  import opened BakeryTickets

  // ----- one process alone

  lemma Then(s: State, a: seq<Action>, t: State, b: seq<Action>, u: State)
    requires s.Shaped() && t.Shaped() && Exec(s, a) == t && Exec(t, b) == u
    ensures Exec(s, a + b) == u
  {
    ExecConcat(s, a, b);
  }

  lemma OneStep(s: State, i: nat)
    requires s.Shaped() && i < |s.pc|
    ensures Exec(s, [Step(i)]) == Next(s, i)
  {
    ExecOne(s, Step(i));
  }

  lemma TwoSteps(s: State, i: nat)
    requires s.Shaped() && i < |s.pc|
    ensures Exec(s, [Step(i), Step(i)]) == Next(Next(s, i), i)
  {
    ExecTwo(s, Step(i), Step(i));
  }

  lemma Moved(s: State, i: nat, q: Pc, r: Pc)
    requires i < |s.pc|
    ensures s.To(i, q).To(i, r) == s.To(i, r)
  {
    assert s.pc[i := q][i := r] == s.pc[i := r];
  }

  /** Scanning alone, a process finds the largest of all tickets. */
  lemma {:induction false} SoloScan(s: State, i: nat, j: nat, max: int) returns (acts: seq<Action>)
    requires s.Shaped() && i < |s.pc| && j <= |s.pc| && s.pc[i] == ScanFrom(|s.pc|, j, max)
    requires max == Highest(s.number[..j])
    ensures Exec(s, acts) == s.To(i, Assign(Highest(s.number)))
    decreases |s.pc| - j
  {
    acts := [];
    if j == |s.pc| {
      assert s.number[..j] == s.number && s.pc[i := s.pc[i]] == s.pc;
    } else {
      var first, found := SoloTest(s, i, j, max);
      HighestNext(s.number, j);
      var t := s.To(i, ScanFrom(|s.pc|, j + 1, found));
      var rest := SoloScan(t, i, j + 1, found);
      acts := first + rest;
      Then(s, first, t, rest, t.To(i, Assign(Highest(s.number))));
      Moved(s, i, ScanFrom(|s.pc|, j + 1, found), Assign(Highest(s.number)));
    }
  }

  lemma HighestNext(number: seq<int>, j: nat)
    requires j < |number|
    ensures var h := Highest(number[..j]);
            Highest(number[..j + 1]) == if number[j] > h then number[j] else h
  {
    assert number[..j + 1][..j] == number[..j];
  }

  lemma TestUp(s: State, i: nat, j: nat, max: int)
    requires s.Shaped() && i < |s.pc| && s.pc[i] == Test(j, max) && s.number[j] > max
    ensures Next(s, i) == s.To(i, Reread(j, max))
    ensures Next(s.To(i, Reread(j, max)), i) == s.To(i, Reread(j, max)).To(i, ScanFrom(|s.pc|, j + 1, s.number[j]))
  {
  }

  lemma SoloTest(s: State, i: nat, j: nat, max: int) returns (acts: seq<Action>, found: int)
    requires s.Shaped() && i < |s.pc| && s.pc[i] == Test(j, max)
    ensures found == if s.number[j] > max then s.number[j] else max
    ensures Exec(s, acts) == s.To(i, ScanFrom(|s.pc|, j + 1, found))
  {
    found := if s.number[j] > max then s.number[j] else max;
    if s.number[j] > max {
      acts := [Step(i), Step(i)];
      calc {
        Exec(s, acts);
        { TwoSteps(s, i); }
        Next(Next(s, i), i);
        { TestUp(s, i, j, max); }
        s.To(i, Reread(j, max)).To(i, ScanFrom(|s.pc|, j + 1, found));
        { Moved(s, i, Reread(j, max), ScanFrom(|s.pc|, j + 1, found)); }
        s.To(i, ScanFrom(|s.pc|, j + 1, found));
      }
    } else {
      acts := [Step(i)];
      OneStep(s, i);
    }
  }

  lemma NextAnnounce(s: State, i: nat)
    requires s.Shaped() && i < |s.pc| && s.pc[i].Announce?
    ensures Next(s, i) == s.(choosing := s.choosing[i := 1]).To(i, Test(0, 0))
  {
  }

  lemma NextAssign(s: State, i: nat, h: int)
    requires s.Shaped() && i < |s.pc| && s.pc[i] == Assign(h)
    ensures Next(s, i) == s.(number := s.number[i := h + 1]).To(i, Report)
  {
  }

  lemma NextReport(s: State, i: nat)
    requires s.Shaped() && i < |s.pc| && s.pc[i].Report?
    ensures Next(s, i) == s.(ticket := s.ticket[i := s.number[i]]).To(i, Retract)
  {
  }

  lemma NextRetract(s: State, i: nat)
    requires s.Shaped() && i < |s.pc| && s.pc[i].Retract?
    ensures Next(s, i) == s.(choosing := s.choosing[i := 0]).To(i, Ticketed)
  {
  }

  /** What a whole body of get_number leaves behind. */
  function WithTicket(s: State, i: nat, h: int): State
    requires s.Shaped() && i < |s.pc|
  {
    s.(number := s.number[i := h + 1], ticket := s.ticket[i := h + 1]).To(i, Ticketed)
  }

  /** Lines 47-49. */
  lemma SoloStore(s: State, i: nat, h: int)
    requires s.Shaped() && i < |s.pc| && s.pc[i] == Assign(h)
    ensures Exec(s, [Step(i), Step(i)] + [Step(i)]) == WithTicket(s, i, h).(choosing := s.choosing[i := 0])
  {
    var stored := s.(number := s.number[i := h + 1]).To(i, Report);
    var told := stored.(ticket := s.ticket[i := h + 1]).To(i, Retract);
    calc {
      Exec(s, [Step(i), Step(i)] + [Step(i)]);
      { ExecConcat(s, [Step(i), Step(i)], [Step(i)]); TwoSteps(s, i); }
      Exec(Next(Next(s, i), i), [Step(i)]);
      { NextAssign(s, i, h); NextReport(stored, i); }
      Exec(told, [Step(i)]);
      { OneStep(told, i); NextRetract(told, i); }
      told.(choosing := s.choosing[i := 0]).To(i, Ticketed);
      { assert s.pc[i := Report][i := Retract][i := Ticketed] == s.pc[i := Ticketed]; }
      WithTicket(s, i, h).(choosing := s.choosing[i := 0]);
    }
  }

  /** A whole body of get_number alone: the ticket is the largest one held plus one. */
  lemma SoloTicket(s: State, i: nat) returns (acts: seq<Action>)
    requires s.Shaped() && i < |s.pc| && s.pc[i].Announce? && s.choosing[i] == 0
    ensures Exec(s, acts) == WithTicket(s, i, Highest(s.number))
  {
    var h := Highest(s.number);
    var open := s.(choosing := s.choosing[i := 1]).To(i, Test(0, 0));
    var scan := SoloScan(open, i, 0, 0);
    var full := open.To(i, Assign(h));
    var store := [Step(i), Step(i)] + [Step(i)];
    acts := ([Step(i)] + scan) + store;
    calc {
      Exec(s, acts);
      { ExecConcat(s, [Step(i)] + scan, store); ExecConcat(s, [Step(i)], scan); }
      Exec(Exec(Exec(s, [Step(i)]), scan), store);
      { OneStep(s, i); NextAnnounce(s, i); }
      Exec(full, store);
      { SoloStore(full, i, h); }
      WithTicket(full, i, h).(choosing := full.choosing[i := 0]);
      { assert s.choosing[i := 1][i := 0] == s.choosing;
        assert s.pc[i := Test(0, 0)][i := Assign(h)][i := Ticketed] == s.pc[i := Ticketed]; }
      WithTicket(s, i, h);
    }
  }

  // ----- one worker alone

  /** Worker i gets past slot j at once: it is not choosing, and holds no earlier ticket. */
  ghost predicate Free(s: State, i: nat, j: nat)
    requires s.Shaped() && i < |s.pc| && j < |s.pc|
  {
    s.choosing[j] == 0 && s.number[j] >= 0 && (s.number[j] > 0 && j != i ==> !Earlier(s.number, j, i))
  }

  lemma NextChoosing(s: State, i: nat, j: nat)
    requires s.Shaped() && i < |s.pc| && s.pc[i] == WaitChoosing(j) && s.choosing[j] == 0
    ensures Next(s, i) == s.To(i, LoadPositive(j))
  {
  }

  lemma NextPositive(s: State, i: nat, j: nat)
    requires s.Shaped() && i < |s.pc| && s.pc[i] == LoadPositive(j)
    ensures Next(s, i) == s.To(i, if s.number[j] > 0 then LoadLess(j) else WaitFrom(|s.pc|, j + 1))
  {
  }

  lemma NextLess(s: State, i: nat, j: nat)
    requires s.Shaped() && i < |s.pc| && s.pc[i] == LoadLess(j) && s.number[i] <= s.number[j]
    ensures Next(s, i) == s.To(i, CompareLess(j, s.number[j]))
    ensures Next(s.To(i, CompareLess(j, s.number[j])), i) == s.To(i, CompareLess(j, s.number[j])).To(i, LoadEqual(j))
  {
  }

  lemma NextEqual(s: State, i: nat, j: nat)
    requires s.Shaped() && i < |s.pc| && s.pc[i] == LoadEqual(j) && (s.number[j] == s.number[i] ==> i <= j)
    ensures Next(s, i) == s.To(i, CompareEqual(j, s.number[j]))
    ensures Next(s.To(i, CompareEqual(j, s.number[j])), i)
         == s.To(i, CompareEqual(j, s.number[j])).To(i, WaitFrom(|s.pc|, j + 1))
  {
  }

  lemma SoloLook(s: State, i: nat, j: nat, next: Pc)
    requires s.Shaped() && i < |s.pc| && s.pc[i] == WaitChoosing(j) && s.choosing[j] == 0
    requires next == if s.number[j] > 0 then LoadLess(j) else WaitFrom(|s.pc|, j + 1)
    ensures Exec(s, [Step(i), Step(i)]) == s.To(i, next)
  {
    calc {
      Exec(s, [Step(i), Step(i)]);
      { TwoSteps(s, i); }
      Next(Next(s, i), i);
      { NextChoosing(s, i, j); NextPositive(s.To(i, LoadPositive(j)), i, j); }
      s.To(i, LoadPositive(j)).To(i, next);
      { Moved(s, i, LoadPositive(j), next); }
      s.To(i, next);
    }
  }

  lemma SoloLess(s: State, i: nat, j: nat)
    requires s.Shaped() && i < |s.pc| && s.pc[i] == LoadLess(j) && s.number[i] <= s.number[j]
    ensures Exec(s, [Step(i), Step(i)]) == s.To(i, LoadEqual(j))
  {
    calc {
      Exec(s, [Step(i), Step(i)]);
      { TwoSteps(s, i); }
      Next(Next(s, i), i);
      { NextLess(s, i, j); }
      s.To(i, CompareLess(j, s.number[j])).To(i, LoadEqual(j));
      { Moved(s, i, CompareLess(j, s.number[j]), LoadEqual(j)); }
      s.To(i, LoadEqual(j));
    }
  }

  lemma SoloEqual(s: State, i: nat, j: nat)
    requires s.Shaped() && i < |s.pc| && s.pc[i] == LoadEqual(j) && (s.number[j] == s.number[i] ==> i <= j)
    ensures Exec(s, [Step(i), Step(i)]) == s.To(i, WaitFrom(|s.pc|, j + 1))
  {
    calc {
      Exec(s, [Step(i), Step(i)]);
      { TwoSteps(s, i); }
      Next(Next(s, i), i);
      { NextEqual(s, i, j); }
      s.To(i, CompareEqual(j, s.number[j])).To(i, WaitFrom(|s.pc|, j + 1));
      { Moved(s, i, CompareEqual(j, s.number[j]), WaitFrom(|s.pc|, j + 1)); }
      s.To(i, WaitFrom(|s.pc|, j + 1));
    }
  }

  /** The tests of line 65 for a slot that holds a ticket. */
  lemma SoloCompare(s: State, i: nat, j: nat)
    requires s.Shaped() && i < |s.pc| && s.pc[i] == LoadLess(j) && Free(s, i, j) && s.number[j] > 0
    ensures Exec(s, [Step(i), Step(i)] + [Step(i), Step(i)]) == s.To(i, WaitFrom(|s.pc|, j + 1))
  {
    var half, equal, next := [Step(i), Step(i)], s.To(i, LoadEqual(j)), WaitFrom(|s.pc|, j + 1);
    calc {
      Exec(s, half + half);
      { ExecConcat(s, half, half); SoloLess(s, i, j); }
      Exec(equal, half);
      { SoloEqual(equal, i, j); }
      equal.To(i, next);
      { Moved(s, i, LoadEqual(j), next); }
      s.To(i, next);
    }
  }

  lemma SoloPass(s: State, i: nat, j: nat) returns (acts: seq<Action>)
    requires s.Shaped() && i < |s.pc| && s.pc[i] == WaitChoosing(j) && Free(s, i, j)
    ensures Exec(s, acts) == s.To(i, WaitFrom(|s.pc|, j + 1))
  {
    var half, next := [Step(i), Step(i)], WaitFrom(|s.pc|, j + 1);
    SoloLook(s, i, j, if s.number[j] > 0 then LoadLess(j) else next);
    acts := half;
    if s.number[j] > 0 {
      acts := half + (half + half);
      var less := s.To(i, LoadLess(j));
      calc {
        Exec(s, acts);
        { ExecConcat(s, half, half + half); }
        Exec(less, half + half);
        { SoloCompare(less, i, j); }
        less.To(i, next);
        { Moved(s, i, LoadLess(j), next); }
        s.To(i, next);
      }
    }
  }

  /** Nobody in the way: the waiting loop ends. */
  lemma {:induction false} SoloWait(s: State, i: nat, j: nat) returns (acts: seq<Action>)
    requires s.Shaped() && i < |s.pc| && j <= |s.pc| && s.pc[i] == WaitFrom(|s.pc|, j)
    requires forall k | j <= k < |s.pc| :: Free(s, i, k)
    ensures Exec(s, acts) == s.To(i, LoadResult)
    decreases |s.pc| - j
  {
    acts := [];
    if j == |s.pc| {
      assert s.pc[i := s.pc[i]] == s.pc;
    } else {
      var first := SoloPass(s, i, j);
      var t := s.To(i, WaitFrom(|s.pc|, j + 1));
      forall k | j + 1 <= k < |s.pc| ensures Free(t, i, k) { assert Free(s, i, k); }
      var rest := SoloWait(t, i, j + 1);
      acts := first + rest;
      Then(s, first, t, rest, t.To(i, LoadResult));
      Moved(s, i, WaitFrom(|s.pc|, j + 1), LoadResult);
    }
  }

  lemma NextTake(s: State, i: nat)
    requires s.Shaped() && i < |s.pc| && s.pc[i].LoadResult?
    ensures Next(s, i) == s.(res := s.res[i := s.symbol]).To(i, LoadSymbol)
  {
  }

  lemma NextLoad(s: State, i: nat)
    requires s.Shaped() && i < |s.pc| && s.pc[i].LoadSymbol?
    ensures Next(s, i) == s.To(i, StoreSymbol(s.symbol))
  {
  }

  lemma NextStore(s: State, i: nat, v: int)
    requires s.Shaped() && i < |s.pc| && s.pc[i] == StoreSymbol(v)
    ensures Next(s, i) == s.(symbol := v + 1).To(i, Release)
  {
  }

  lemma NextRelease(s: State, i: nat)
    requires s.Shaped() && i < |s.pc| && s.pc[i].Release?
    ensures Next(s, i) == s.(number := s.number[i := 0]).To(i, Done)
  {
  }

  /** What a worker that ends leaves behind. */
  function Ended(s: State, i: nat): State
    requires s.Shaped() && i < |s.pc|
  {
    s.(res := s.res[i := s.symbol], symbol := s.symbol + 1, number := s.number[i := 0]).To(i, Done)
  }

  /** The critical section: the letter is taken, the next one is left, the ticket is given back. */
  lemma SoloCritical(s: State, i: nat) returns (acts: seq<Action>)
    requires s.Shaped() && i < |s.pc| && s.pc[i].LoadResult?
    ensures Exec(s, acts) == Ended(s, i)
  {
    var half := [Step(i), Step(i)];
    var took := s.(res := s.res[i := s.symbol]).To(i, LoadSymbol);
    var loaded := took.To(i, StoreSymbol(s.symbol));
    var stored := loaded.(symbol := s.symbol + 1).To(i, Release);
    acts := half + half;
    calc {
      Exec(s, half + half);
      { ExecConcat(s, half, half); TwoSteps(s, i); }
      Exec(Next(Next(s, i), i), half);
      { NextTake(s, i); NextLoad(took, i); }
      Exec(loaded, half);
      { TwoSteps(loaded, i); }
      Next(Next(loaded, i), i);
      { NextStore(loaded, i, s.symbol); NextRelease(stored, i); }
      stored.(number := s.number[i := 0]).To(i, Done);
      { assert stored.pc[i := Done] == s.pc[i := Done]; }
      Ended(s, i);
    }
  }

  // ----- the schedule

  /** Tickets 1 and 2 are with processes 1 and 2, nobody else has one, and only process 0 may be choosing. */
  ghost predicate TwoTickets(s: State) {
    && s.Shaped() && |s.pc| >= 3
    && (forall k | 1 <= k < |s.pc| :: s.choosing[k] == 0)
    && s.number[1] == 1 && s.number[2] == 2
    && (forall k | 0 <= k < |s.pc| && k != 1 && k != 2 :: s.number[k] == 0)
  }

  lemma ThreeArrive(n: nat) returns (acts: seq<Action>)
    requires n >= 3
    ensures var s := Exec(Initial(n), acts);
            && s.pc[0] == s.pc[1] == s.pc[2] == Announce
            && forall k | 0 <= k < n :: s.choosing[k] == 0 && s.number[k] == 0
  {
    acts := [Allocate, Allocate] + [Allocate];
    ExecConcat(Initial(n), [Allocate, Allocate], [Allocate]);
    ExecTwo(Initial(n), Allocate, Allocate);
    ExecOne(Exec(Initial(n), [Allocate, Allocate]), Allocate);
  }

  lemma HighestIs(number: seq<int>, h: int)
    requires h >= 0 && (h == 0 || h in number) && forall k | 0 <= k < |number| :: number[k] <= h
    ensures Highest(number) == h
  {
  }

  /** Processes 1 and 2 take their tickets before process 0 announces itself. */
  lemma TakeTickets(s: State) returns (acts: seq<Action>)
    requires s.Shaped() && |s.pc| >= 3 && s.pc[0] == s.pc[1] == s.pc[2] == Announce
    requires forall k | 0 <= k < |s.pc| :: s.choosing[k] == 0 && s.number[k] == 0
    ensures var t := Exec(s, acts);
            TwoTickets(t) && t.choosing[0] == 0 && t.pc[0] == Announce && t.pc[1] == t.pc[2] == Ticketed
  {
    var first := SoloTicket(s, 1);
    HighestIs(s.number, 0);
    var t := WithTicket(s, 1, 0);
    var second := SoloTicket(t, 2);
    assert t.number[1] == 1;
    HighestIs(t.number, 1);
    acts := first + second;
    ExecConcat(s, first, second);
  }

  /** Their workers get past slot 0. */
  lemma PassFirst(s: State, i: nat) returns (acts: seq<Action>)
    requires TwoTickets(s) && 0 < i < |s.pc| && s.choosing[0] == 0 && s.pc[i].Ticketed?
    ensures Exec(s, acts) == s.To(i, WaitFrom(|s.pc|, 1))
  {
    var t, next := s.To(i, WaitFrom(|s.pc|, 0)), WaitFrom(|s.pc|, 1);
    var pass := SoloPass(t, i, 0);
    acts := [Spawn(i)] + pass;
    calc {
      Exec(s, acts);
      { ExecConcat(s, [Spawn(i)], pass); ExecOne(s, Spawn(i)); }
      Exec(t, pass);
      t.To(i, next);
      { Moved(s, i, WaitFrom(|s.pc|, 0), next); }
      s.To(i, next);
    }
  }

  /** Process 0 announces itself and scans slots 0 and 1. */
  lemma ScanTwo(s: State) returns (acts: seq<Action>)
    requires TwoTickets(s) && s.pc[0] == Announce
    ensures Exec(s, acts) == s.(choosing := s.choosing[0 := 1]).To(0, Test(2, 1))
  {
    var open := s.(choosing := s.choosing[0 := 1]).To(0, Test(0, 0));
    OneStep(s, 0);
    NextAnnounce(s, 0);
    var a, max := SoloTest(open, 0, 0, 0);
    var mid := open.To(0, Test(1, 0));
    var b, max' := SoloTest(mid, 0, 1, 0);
    acts := [Step(0)] + (a + b);
    ExecConcat(s, [Step(0)], a + b);
    ExecConcat(open, a, b);
    Moved(open, 0, Test(1, 0), Test(2, 1));
    assert open.To(0, Test(2, 1)).pc == s.pc[0 := Test(2, 1)];
  }

  /** A worker past slot 0 with nobody else in its way ends. */
  lemma Ends(s: State, i: nat) returns (acts: seq<Action>)
    requires s.Shaped() && i < |s.pc| && s.pc[i] == WaitFrom(|s.pc|, 1) && |s.pc| > 1
    requires forall k | 1 <= k < |s.pc| :: Free(s, i, k)
    ensures var t := Exec(s, acts);
            t.number == s.number[i := 0] && t.choosing == s.choosing && t.pc == s.pc[i := Done]
  {
    var wait := SoloWait(s, i, 1);
    var t := s.To(i, LoadResult);
    var rest := SoloCritical(t, i);
    acts := wait + rest;
    ExecConcat(s, wait, rest);
    Moved(s, i, LoadResult, Done);
  }

  /** Worker 1 ends, process 0 loads number[2] for the first time, worker 2 ends. */
  lemma EndsBetween(s: State) returns (acts: seq<Action>)
    requires TwoTickets(s) && s.pc[0] == Test(2, 1) && s.pc[1] == s.pc[2] == WaitFrom(|s.pc|, 1)
    ensures var t := Exec(s, acts); t.pc[0] == Reread(2, 1) && t.number[2] == 0
  {
    var one := Ends(s, 1);
    var t := Exec(s, one);
    OneStep(t, 0);
    TestUp(t, 0, 2, 1);
    var u := t.To(0, Reread(2, 1));
    var two := Ends(u, 2);
    acts := one + ([Step(0)] + two);
    ExecConcat(s, one, [Step(0)] + two);
    ExecConcat(t, [Step(0)], two);
  }

  lemma Prepare(s: State) returns (acts: seq<Action>)
    requires TwoTickets(s) && s.choosing[0] == 0 && s.pc[0] == Announce && s.pc[1] == s.pc[2] == Ticketed
    ensures var t := Exec(s, acts);
            TwoTickets(t) && t.pc[0] == Test(2, 1) && t.pc[1] == t.pc[2] == WaitFrom(|t.pc|, 1)
  {
    var next := WaitFrom(|s.pc|, 1);
    var one := PassFirst(s, 1);
    var t := s.To(1, next);
    var two := PassFirst(t, 2);
    var u := t.To(2, next);
    var scan := ScanTwo(u);
    acts := one + (two + scan);
    calc {
      Exec(s, acts);
      { ExecConcat(s, one, two + scan); }
      Exec(t, two + scan);
      { ExecConcat(t, two, scan); }
      Exec(u, scan);
      u.(choosing := u.choosing[0 := 1]).To(0, Test(2, 1));
    }
  }

  /**
   * With three or more slots the second load can take the running maximum from 1 back to 0, although
   * the scan went up to that slot because it held a larger ticket.
   */
  lemma RereadCanLower(n: nat) returns (acts: seq<Action>)
    requires n >= 3
    ensures var s := Exec(Initial(n), acts);
            s.pc[0] == Reread(2, 1) && s.number[2] == 0 && Next(s, 0).pc[0] == ScanFrom(n, 3, 0)
  {
    var arrive := ThreeArrive(n);
    var s := Exec(Initial(n), arrive);
    var take := TakeTickets(s);
    var t := Exec(s, take);
    var prepare := Prepare(t);
    var u := Exec(t, prepare);
    var rest := EndsBetween(u);
    acts := arrive + (take + (prepare + rest));
    ExecConcat(Initial(n), arrive, take + (prepare + rest));
    ExecConcat(s, take, prepare + rest);
    ExecConcat(t, prepare, rest);
  }
}
