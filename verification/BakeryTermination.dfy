/**
 * Fair termination of the bakery lock, ties and overlapping bodies of get_number included: once
 * nobody is inside get_number and every ticket up to that of c has its worker, c gets through in
 * a bounded number of rounds in which those workers step, whatever else happens in between.
 */
module BakeryTermination {
  import opened BakeryLock
  import Counting

  // ----- the worker with the least ticket

  /** Nobody is inside get_number. */
  ghost predicate Quiescent(s: State)
    requires s.Shaped()
  {
    forall k | 0 <= k < |s.pc| :: !s.pc[k].InGetNumber()
  }

  /** Process i holds the least of all tickets. */
  ghost predicate Least(number: seq<int>, i: nat)
    requires i < |number|
  {
    number[i] > 0 && forall k | 0 <= k < |number| && k != i && number[k] > 0 :: Earlier(number, i, k)
  }

  /** Steps worker i still needs while it holds the least ticket. */
  function Remaining(s: State, i: nat): nat
    requires s.Shaped() && i < |s.pc|
  {
    var n := |s.pc|;
    match s.pc[i]
    case WaitChoosing(j) => 8 * (n - j) + 6
    case LoadPositive(j) => 8 * (n - j) + (if s.number[j] > 0 then 5 else 1)
    case LoadLess(j) => 8 * (n - j) + (if s.number[j] > 0 then 4 else 5)
    case CompareLess(j, v) => 8 * (n - j) + (if s.number[j] > 0 then 3 else 4)
    case LoadEqual(j) => 8 * (n - j) + (if s.number[j] > 0 then 2 else 3)
    case CompareEqual(j, v) => 8 * (n - j) + (if s.number[j] > 0 then 1 else 2)
    case LoadResult => 4
    case LoadSymbol => 3
    case StoreSymbol(v) => 2
    case Release => 1
    case _ => 0
  }

  lemma LeastWaits(s: State, i: nat, j: nat)
    requires s.Shaped() && i < |s.pc| && s.pc[i].Scans() && j == s.pc[i].j
    requires s.choosing[j] == 0 && s.number[j] >= 0 && Learnt(s, i, j) && Least(s.number, i)
    ensures Remaining(WaitStep(s, i), i) < Remaining(s, i)
  {
  }

  /** The worker with the least ticket never waits: each of its steps brings it closer to its release. */
  lemma LeastAdvances(s: State, i: nat)
    requires Inv(s) && Quiescent(s) && i < |s.pc| && s.pc[i].IsWorker() && Least(s.number, i)
    ensures Remaining(Next(s, i), i) < Remaining(s, i)
  {
    if s.pc[i].Scans() {
      var j := s.pc[i].j;
      assert Local(s, j) && Pair(s, i, j);
      LeastWaits(s, i, j);
    }
  }

  /** Nobody else can give back or take a ticket meanwhile, so no other step sets it back. */
  lemma LeastUndisturbed(s: State, i: nat, p: nat)
    requires Inv(s) && Quiescent(s) && i < |s.pc| && Least(s.number, i) && p < |s.pc| && p != i
    ensures var t := Next(s, p);
            t.number == s.number && t.pc[i] == s.pc[i] && Remaining(t, i) == Remaining(s, i)
  {
    NextMoves(s, p);
    assert Local(s, p) && Pair(s, p, i);
  }

  // ----- the measure

  /** The least ticket that is not later than that of c, looking at the first m slots. */
  function LeastOf(number: seq<int>, c: nat, m: nat): (i: nat)
    requires c < |number| && number[c] > 0 && m <= |number|
    ensures i < |number| && number[i] > 0 && (i == c || Earlier(number, i, c))
    ensures forall k | 0 <= k < m && k != i && number[k] > 0 :: Earlier(number, i, k)
    ensures i != c ==> forall k | k == c :: Earlier(number, i, k)
  {
    if m == 0 then c
    else
      var i := LeastOf(number, c, m - 1);
      if number[m - 1] > 0 && m - 1 != i && Earlier(number, m - 1, i) then m - 1 else i
  }

  function Held(number: seq<int>): nat { Counting.Count(number, x => x > 0) }

  lemma HeldReleased(number: seq<int>, i: nat)
    requires i < |number| && number[i] > 0
    ensures Held(number[i := 0]) == Held(number) - 1
  {
    Counting.CountUpdate(number, i, 0, x => x > 0);
  }

  /** The process everybody up to c is waiting for. */
  function Front(number: seq<int>, c: nat): (i: nat)
    requires c < |number| && number[c] > 0
    ensures i < |number| && Least(number, i) && (i == c || Earlier(number, i, c))
  {
    LeastOf(number, c, |number|)
  }

  /** The product h * k, as so many steps for each of h tickets. */
  function Times(h: nat, k: nat): nat { if h == 0 then 0 else Times(h - 1, k) + k }

  /** An upper bound of the steps that processes at the front still take before c is through. */
  function Work(s: State, c: nat): nat
    requires s.Shaped() && c < |s.pc|
  {
    if s.number[c] > 0 then Times(Held(s.number), 8 * |s.pc| + 7) + Remaining(s, Front(s.number, c)) else 0
  }

  /** No ticket up to that of c is without its worker. */
  ghost predicate Served(s: State, c: nat)
    requires s.Shaped() && c < |s.pc|
  {
    forall k | 0 <= k < |s.pc| && s.number[k] > 0 && (k == c || Earlier(s.number, k, c)) :: s.pc[k].IsWorker()
  }

  ghost predicate Draining(s: State, c: nat) {
    Inv(s) && Quiescent(s) && c < |s.pc| && Served(s, c)
  }

  /** Tickets are given back, none is handed out, and a worker leaves only by giving back its own. */
  ghost predicate Drains(s: State, t: State)
    requires s.Shaped() && t.Shaped() && |s.pc| == |t.pc|
  {
    && (forall k | 0 <= k < |s.pc| && t.number[k] > 0 :: t.number[k] == s.number[k])
    && (forall k | 0 <= k < |s.pc| && s.pc[k].IsWorker() && t.number[k] > 0 :: t.pc[k].IsWorker())
    && (forall k | 0 <= k < |s.pc| && t.pc[k].InGetNumber() :: s.pc[k].InGetNumber())
    && (forall k | 0 <= k < |s.pc| && s.pc[k].Assigned() :: t.pc[k].Assigned())
  }

  lemma DrainsNext(s: State, p: nat)
    requires s.Shaped() && p < |s.pc| && !s.pc[p].InGetNumber()
    ensures Drains(s, Next(s, p))
  {
    NextMoves(s, p);
  }

  lemma DrainsApply(s: State, a: Action)
    requires s.Shaped() && Quiescent(s) && !a.Allocate?
    ensures Drains(s, Apply(s, a))
  {
    if a.Step? && a.i < |s.pc| { DrainsNext(s, a.i); }
  }

  lemma DrainingOn(s: State, t: State, c: nat)
    requires Draining(s, c) && Inv(t) && |s.pc| == |t.pc| && Drains(s, t)
    ensures Draining(t, c)
  {
  }

  lemma DrainingKept(s: State, c: nat, a: Action)
    requires Draining(s, c) && !a.Allocate?
    ensures Draining(Apply(s, a), c) && Drains(s, Apply(s, a))
  {
    InvApply(s, a);
    DrainsApply(s, a);
    DrainingOn(s, Apply(s, a), c);
  }

  lemma RemainingBound(s: State, i: nat)
    requires s.Shaped() && i < |s.pc|
    ensures Remaining(s, i) <= 8 * |s.pc| + 6
  {
  }

  lemma FrontReleases(s: State, t: State, c: nat, i: nat)
    requires s.Shaped() && t.Shaped() && |s.pc| == |t.pc| && c < |s.pc| && s.number[c] > 0
    requires i == Front(s.number, c) && t.number == s.number[i := 0]
    ensures Work(t, c) < Work(s, c)
  {
    HeldReleased(s.number, i);
    if i != c { RemainingBound(t, Front(t.number, c)); }
  }

  /** The front process comes closer to its release, or it hands the front over. */
  lemma FrontMoves(s: State, t: State, c: nat, i: nat)
    requires s.Shaped() && t.Shaped() && |s.pc| == |t.pc| && c < |s.pc| && s.number[c] > 0
    requires i == Front(s.number, c) && s.pc[i].IsWorker() && Moves(s, t, i)
    requires Remaining(t, i) < Remaining(s, i)
    ensures Work(t, c) < Work(s, c)
  {
    if s.pc[i].Release? { FrontReleases(s, t, c, i); }
  }

  lemma WorkSame(s: State, t: State, c: nat)
    requires s.Shaped() && t.Shaped() && |s.pc| == |t.pc| && c < |s.pc| && s.number[c] > 0 && t.number == s.number
    requires Remaining(t, Front(s.number, c)) == Remaining(s, Front(s.number, c))
    ensures Work(t, c) == Work(s, c)
  {
  }

  /** One action: a step of the front process lowers the work, anything else leaves it and the front alone. */
  lemma WorkStep(s: State, c: nat, a: Action)
    requires Draining(s, c) && !a.Allocate? && s.number[c] > 0
    ensures var t := Apply(s, a);
            if a == Step(Front(s.number, c)) then Work(t, c) < Work(s, c)
            else t.number == s.number && Work(t, c) == Work(s, c)
  {
    var i := Front(s.number, c);
    match a
    case Step(p) =>
      if p == i {
        LeastAdvances(s, i);
        NextMoves(s, i);
        FrontMoves(s, Next(s, i), c, i);
      } else if p < |s.pc| {
        LeastUndisturbed(s, i, p);
        WorkSame(s, Next(s, p), c);
      }
    case Spawn(k) =>
      var t := Apply(s, a);
      if t != s {
        assert i != k;
        WorkSame(s, t, c);
      }
  }

  lemma {:induction false} HeldBound(number: seq<int>)
    ensures Held(number) <= |number|
  {
    if number != [] { HeldBound(number[..|number| - 1]); }
  }

  lemma {:induction false} TimesProduct(h: nat, n: nat, k: nat)
    requires h < n
    ensures Times(h, k) + k <= n * k
  {
    if h > 0 { TimesProduct(h - 1, n - 1, k); }
    assert n * k == (n - 1) * k + k;
  }

  /** The bound is quadratic in the number of slots: (n + 1) * (8 * n + 7). */
  lemma WorkBound(s: State, c: nat, n: nat, k: nat)
    requires s.Shaped() && c < |s.pc| && n == |s.pc| && k == 8 * n + 7
    ensures Work(s, c) < (n + 1) * k
  {
    HeldBound(s.number);
    TimesProduct(Held(s.number), n + 1, k);
    if s.number[c] > 0 { RemainingBound(s, Front(s.number, c)); }
  }

  // ----- rounds

  ghost predicate NoArrivals(acts: seq<Action>) { forall a | a in acts :: !a.Allocate? }

  /** Every worker with a ticket up to that of c takes a step in this round. */
  ghost predicate Round(s: State, c: nat, acts: seq<Action>)
    requires s.Shaped() && c < |s.pc|
  {
    && NoArrivals(acts)
    && forall k | 0 <= k < |s.pc| && s.number[k] > 0 && (k == c || Earlier(s.number, k, c)) :: Step(k) in acts
  }

  lemma {:induction false} DrainingExec(s: State, c: nat, acts: seq<Action>)
    requires Draining(s, c) && NoArrivals(acts)
    ensures Draining(Exec(s, acts), c) && Drains(s, Exec(s, acts))
    ensures Work(Exec(s, acts), c) <= Work(s, c)
  {
    if acts != [] {
      var init, a := acts[..|acts| - 1], acts[|acts| - 1];
      DrainingExec(s, c, init);
      DrainingKept(Exec(s, init), c, a);
      if Exec(s, init).number[c] > 0 { WorkStep(Exec(s, init), c, a); }
    }
  }

  /** A round lowers the work: at the latest when the process at its front steps. */
  lemma {:induction false} RoundLowers(s: State, c: nat, acts: seq<Action>)
    requires Draining(s, c) && s.number[c] > 0 && NoArrivals(acts)
    ensures var t := Exec(s, acts);
            || Work(t, c) < Work(s, c)
            || (Step(Front(s.number, c)) !in acts && t.number == s.number && Work(t, c) == Work(s, c))
  {
    if acts != [] {
      var init, a := acts[..|acts| - 1], acts[|acts| - 1];
      RoundLowers(s, c, init);
      DrainingExec(s, c, init);
      var t := Exec(s, init);
      if t.number[c] > 0 { WorkStep(t, c, a); } else { DrainingKept(t, c, a); }
    }
  }

  function Flatten<T>(rounds: seq<seq<T>>): seq<T> {
    if rounds == [] then [] else rounds[0] + Flatten(rounds[1..])
  }

  /** A round is still one later on: no ticket is handed out meanwhile. */
  lemma RoundLater(s: State, t: State, c: nat, acts: seq<Action>)
    requires s.Shaped() && t.Shaped() && |s.pc| == |t.pc| && c < |s.pc| && Drains(s, t)
    requires Round(s, c, acts) && t.number[c] >= 0
    ensures Round(t, c, acts)
  {
  }

  lemma WorkPositive(s: State, c: nat)
    requires s.Shaped() && c < |s.pc| && s.number[c] > 0 && Served(s, c)
    ensures Work(s, c) > 0
  {
    assert s.pc[Front(s.number, c)].IsWorker();
  }

  lemma OneRound(s: State, c: nat, acts: seq<Action>)
    requires Draining(s, c) && Round(s, c, acts)
    ensures var t := Exec(s, acts);
            && Draining(t, c) && Drains(s, t) && t.number[c] >= 0
            && (Work(s, c) > 0 ==> Work(t, c) < Work(s, c))
  {
    DrainingExec(s, c, acts);
    assert Local(Exec(s, acts), c) && Local(s, c);
    if s.number[c] > 0 { RoundLowers(s, c, acts); }
  }

  lemma DrainsOn(s: State, t: State, u: State)
    requires s.Shaped() && t.Shaped() && u.Shaped() && |s.pc| == |t.pc| == |u.pc|
    requires Drains(s, t) && Drains(t, u)
    ensures Drains(s, u)
  {
  }

  lemma FirstRound(s: State, c: nat, rounds: seq<seq<Action>>)
    requires Draining(s, c) && 0 < |rounds| && |rounds| >= Work(s, c)
    requires forall r | r in rounds :: Round(s, c, r)
    ensures var t := Exec(s, rounds[0]);
            && Draining(t, c) && Drains(s, t) && |rounds[1..]| >= Work(t, c)
            && forall r | r in rounds[1..] :: Round(t, c, r)
  {
    var t := Exec(s, rounds[0]);
    OneRound(s, c, rounds[0]);
    DrainingExec(s, c, rounds[0]);
    forall r | r in rounds[1..] ensures Round(t, c, r) { RoundLater(s, t, c, r); }
  }

  /**
   * Fair termination: after as many rounds as the work of c, whatever their order and whoever else
   * steps in them, c has given its ticket back.
   */
  lemma {:induction false} FairTermination(s: State, c: nat, rounds: seq<seq<Action>>)
    requires Draining(s, c) && |rounds| >= Work(s, c)
    requires forall r | r in rounds :: Round(s, c, r)
    ensures var t := Exec(s, Flatten(rounds));
            Draining(t, c) && Drains(s, t) && t.number[c] == 0
    decreases |rounds|
  {
    if rounds == [] {
      assert Local(s, c);
      if s.number[c] > 0 { WorkPositive(s, c); }
    } else {
      var t := Exec(s, rounds[0]);
      FirstRound(s, c, rounds);
      FairTermination(t, c, rounds[1..]);
      ExecConcat(s, rounds[0], Flatten(rounds[1..]));
      DrainsOn(s, t, Exec(t, Flatten(rounds[1..])));
    }
  }

  /** In every reachable state: the worker of c ends if the workers of the tickets up to its own keep stepping. */
  lemma WorkerEnds(n: nat, acts: seq<Action>, c: nat, rounds: seq<seq<Action>>)
    requires c < n && Quiescent(Exec(Initial(n), acts)) && Served(Exec(Initial(n), acts), c)
    requires Exec(Initial(n), acts).pc[c].IsWorker()
    requires |rounds| >= Work(Exec(Initial(n), acts), c)
    requires forall r | r in rounds :: Round(Exec(Initial(n), acts), c, r)
    ensures Exec(Exec(Initial(n), acts), Flatten(rounds)).pc[c].Done?
  {
    var s := Exec(Initial(n), acts);
    Reachable(n, acts);
    FairTermination(s, c, rounds);
    assert Local(Exec(s, Flatten(rounds)), c);
  }
}
