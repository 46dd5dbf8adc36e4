/**
 * The bakery lock of unix-lab-06/bakery/bakery_server.c as a step machine.  One process per
 * slot runs the body of `get_number` and later the body of `bakery`; every load and every store
 * of `choosing[]`, `number[]` and `symbol` is a step of its own.  In this module any number
 * of `get_number` bodies may overlap: only the id allocation of lines 39-40 is atomic.
 */
module BakeryLock {
  import Counting

  const LETTER_A := 97

  /** Where a process stands; `j`, `max` and `v` are its local variables and loaded values. */
  datatype Pc =
    | Unused                       // the id has not been handed out
    | Announce                     // line 42
    | Test(j: nat, max: int)       // line 45, first load of number[j]
    | Reread(j: nat, max: int)     // line 46, second load of number[j]
    | Assign(max: int)             // line 47
    | Report                       // line 48
    | Retract                      // line 49
    | Ticketed                     // get_number has returned, no worker thread yet
    | WaitChoosing(j: nat)         // line 64
    | LoadPositive(j: nat)         // line 65, number[j] > 0
    | LoadLess(j: nat)             // line 65, load of number[j] for <
    | CompareLess(j: nat, v: int)  // line 65, load of number[i] for <
    | LoadEqual(j: nat)            // line 65, load of number[j] for ==
    | CompareEqual(j: nat, v: int) // line 65, load of number[i] for ==
    | LoadResult                   // line 67
    | LoadSymbol                   // line 68, load
    | StoreSymbol(v: int)          // line 68, store
    | Release                      // line 73
    | Done
  {
    predicate InGetNumber() { Announce? || Chooses() }
    predicate Chooses() { Test? || Reread? || Assign? || Report? || Retract? }
    predicate Scans() {
      WaitChoosing? || LoadPositive? || LoadLess? || CompareLess? || LoadEqual? || CompareEqual?
    }
    predicate InCritical() { LoadResult? || LoadSymbol? || StoreSymbol? || Release? }
    predicate IsWorker() { Scans() || InCritical() }
    predicate Holds() { Report? || Retract? || Ticketed? || IsWorker() }
    predicate Assigned() { Holds() || Done? }
    predicate Stored() { Release? || Done? }
    predicate Took() { LoadSymbol? || StoreSymbol? || Stored() }
    predicate Fits(n: nat) {
      (Test? || Reread? || Scans()) ==> j < n
    }
  }

  datatype State = State(
    choosing: seq<int>, number: seq<int>, symbol: int, num: nat,
    ticket: seq<int>, // targ->num, what get_number reports to the client
    res: seq<int>,    // targ->res, the letter the worker has taken
    pc: seq<Pc>)
  {
    predicate Shaped() {
      && |choosing| == |number| == |ticket| == |res| == |pc|
      && num <= |pc|
      && forall i | 0 <= i < |pc| :: pc[i].Fits(|pc|)
    }

    function To(i: nat, p: Pc): State
      requires i < |pc|
    {
      this.(pc := pc[i := p])
    }
  }

  function Initial(n: nat): State {
    State(seq(n, _ => 0), seq(n, _ => 0), LETTER_A, 0, seq(n, _ => 0), seq(n, _ => 0), seq(n, _ => Unused))
  }

  /** The head of the scan loop at line 44. */
  function ScanFrom(n: nat, j: nat, max: int): Pc {
    if j < n then Test(j, max) else Assign(max)
  }

  /** The head of the waiting loop at line 62. */
  function WaitFrom(n: nat, j: nat): Pc {
    if j < n then WaitChoosing(j) else LoadResult
  }

  /** The next load or store of get_number, lines 42-49, run for slot i. */
  function GetNumberStep(s: State, i: nat): (t: State)
    requires s.Shaped() && i < |s.pc|
    ensures |t.pc| == |s.pc| && t.Shaped()
  {
    var n := |s.pc|;
    match s.pc[i]
    case Announce => s.(choosing := s.choosing[i := 1]).To(i, Test(0, 0))
    case Test(j, max) =>
      if s.number[j] > max then s.To(i, Reread(j, max)) else s.To(i, ScanFrom(n, j + 1, max))
    case Reread(j, max) => s.To(i, ScanFrom(n, j + 1, s.number[j]))
    case Assign(max) => s.(number := s.number[i := max + 1]).To(i, Report)
    case Report => s.(ticket := s.ticket[i := s.number[i]]).To(i, Retract)
    case Retract => s.(choosing := s.choosing[i := 0]).To(i, Ticketed)
    case _ => s
  }

  /** The next load or store of the waiting loop of bakery, lines 62-66, for slot i. */
  function WaitStep(s: State, i: nat): (t: State)
    requires s.Shaped() && i < |s.pc|
    ensures |t.pc| == |s.pc| && t.Shaped()
  {
    var n := |s.pc|;
    match s.pc[i]
    case WaitChoosing(j) => if s.choosing[j] != 0 then s else s.To(i, LoadPositive(j))
    case LoadPositive(j) => if s.number[j] > 0 then s.To(i, LoadLess(j)) else s.To(i, WaitFrom(n, j + 1))
    case LoadLess(j) => s.To(i, CompareLess(j, s.number[j]))
    case CompareLess(j, v) => if v < s.number[i] then s.To(i, LoadPositive(j)) else s.To(i, LoadEqual(j))
    case LoadEqual(j) => s.To(i, CompareEqual(j, s.number[j]))
    case CompareEqual(j, v) =>
      if v == s.number[i] && j < i then s.To(i, LoadPositive(j)) else s.To(i, WaitFrom(n, j + 1))
    case _ => s
  }

  /** The next load or store of the critical section of bakery, lines 67-73, for slot i. */
  function CriticalStep(s: State, i: nat): (t: State)
    requires s.Shaped() && i < |s.pc|
    ensures |t.pc| == |s.pc| && t.Shaped()
  {
    match s.pc[i]
    case LoadResult => s.(res := s.res[i := s.symbol]).To(i, LoadSymbol)
    case LoadSymbol => s.To(i, StoreSymbol(s.symbol))
    case StoreSymbol(v) => s.(symbol := v + 1).To(i, Release)
    case Release => s.(number := s.number[i := 0]).To(i, Done)
    case _ => s
  }

  /** The next load or store of process i. A spinning or finished process leaves the state alone. */
  function Next(s: State, i: nat): (t: State)
    requires s.Shaped() && i < |s.pc|
    ensures |t.pc| == |s.pc| && t.Shaped()
  {
    if s.pc[i].InGetNumber() then GetNumberStep(s, i)
    else if s.pc[i].Scans() then WaitStep(s, i)
    else CriticalStep(s, i)
  }

  /** A new client: its id is allocated, or its worker thread is created, or some process steps. */
  datatype Action = Allocate | Spawn(i: nat) | Step(i: nat)

  function Apply(s: State, a: Action): (t: State)
    requires s.Shaped()
    ensures |t.pc| == |s.pc| && t.Shaped()
  {
    match a
    case Allocate =>
      if s.num < |s.pc| then s.(num := s.num + 1).To(s.num, Announce) else s
    case Spawn(i) =>
      if i < |s.pc| && s.pc[i].Ticketed? then s.To(i, WaitFrom(|s.pc|, 0)) else s
    case Step(i) =>
      if i < |s.pc| then Next(s, i) else s
  }

  /** The state after a whole schedule. */
  function Exec(s: State, acts: seq<Action>): (t: State)
    requires s.Shaped()
    ensures |t.pc| == |s.pc| && t.Shaped()
  {
    if acts == [] then s else Apply(Exec(s, acts[..|acts| - 1]), acts[|acts| - 1])
  }

  // ----- the invariant

  /** What each process owns: its choosing flag and its ticket are exactly where its pc says. */
  ghost predicate Local(s: State, i: nat)
    requires s.Shaped() && i < |s.pc|
  {
    var p := s.pc[i];
    && (p.Unused? <==> s.num <= i)
    && s.choosing[i] == (if p.Chooses() then 1 else 0)
    && (if p.Holds() then s.number[i] > 0 else s.number[i] == 0)
    && (p.Holds() && !p.Report? ==> s.ticket[i] == s.number[i])
    && (p.Test? || p.Reread? || p.Assign? ==> p.max >= 0)
    && (p.StoreSymbol? ==> p.v == s.symbol)
  }

  /** Worker p has left the loop of line 64 for index k. */
  predicate Checked(p: Pc, k: nat) {
    p.InCritical() || (p.WaitChoosing? && k < p.j) || (p.Scans() && !p.WaitChoosing? && k <= p.j)
  }

  /** Worker p has left the loop of line 65 for index k. */
  predicate Passed(p: Pc, k: nat) {
    p.InCritical() || (p.Scans() && k < p.j)
  }

  /** Tickets are ordered by number, ties by slot. */
  predicate Earlier(number: seq<int>, i: nat, k: nat)
    requires i < |number| && k < |number|
  {
    number[i] < number[k] || (number[i] == number[k] && i < k)
  }

  predicate Before(s: State, i: nat, k: nat)
    requires s.Shaped() && i < |s.pc| && k < |s.pc|
  {
    Earlier(s.number, i, k)
  }

  /** The max scan of k either still has to load number[i] or cannot end below it. */
  ghost predicate WillSee(s: State, k: nat, i: nat)
    requires s.Shaped() && i < |s.pc| && k < |s.pc|
  {
    match s.pc[k]
    case Test(j, max) => j <= i || s.number[i] <= max
    case Reread(j, max) => j <= i || s.number[i] <= max < s.number[j]
    case Assign(max) => s.number[i] <= max
    case _ => true
  }

  /** What worker i has learnt so far about the ticket of k, if that ticket is still held. */
  ghost predicate Learnt(s: State, i: nat, k: nat)
    requires s.Shaped() && i < |s.pc| && k < |s.pc|
  {
    match s.pc[i]
    case LoadLess(j) => j == k ==> s.pc[k].Assigned()
    case CompareLess(j, v) => j == k ==> s.pc[k].Assigned() && (s.number[k] > 0 ==> v == s.number[k])
    case LoadEqual(j) => j == k ==> s.pc[k].Assigned() && (s.number[k] > 0 ==> s.number[i] <= s.number[k])
    case CompareEqual(j, v) =>
      j == k ==> s.pc[k].Assigned() && (s.number[k] > 0 ==> v == s.number[k] && s.number[i] <= s.number[k])
    case _ => true
  }

  ghost predicate Pair(s: State, i: nat, k: nat)
    requires s.Shaped() && i < |s.pc| && k < |s.pc|
  {
    && (Checked(s.pc[i], k) ==> WillSee(s, k, i))
    && Learnt(s, i, k)
    && (Passed(s.pc[i], k) && i != k && s.number[k] > 0 ==> Before(s, i, k))
  }

  /** How many letters have been handed out. */
  function Handed(pc: seq<Pc>): nat { Counting.Count(pc, (p: Pc) => p.Stored()) }

  lemma HandedUpdate(pc: seq<Pc>, i: nat, p: Pc)
    requires i < |pc|
    ensures Handed(pc[i := p]) == Handed(pc) - (if pc[i].Stored() then 1 else 0) + (if p.Stored() then 1 else 0)
  {
    Counting.CountUpdate(pc, i, p, (p: Pc) => p.Stored());
  }

  ghost predicate Inv(s: State) {
    && s.Shaped()
    && (forall i | 0 <= i < |s.pc| :: Local(s, i))
    && (forall i, k | 0 <= i < |s.pc| && 0 <= k < |s.pc| :: Pair(s, i, k))
    && s.symbol == LETTER_A + Handed(s.pc)
    && OwnLetters(s)
  }

  /** A worker has the letter of line 67, and no two workers have the same one. */
  ghost predicate OwnLetters(s: State)
    requires s.Shaped()
  {
    && (forall i | 0 <= i < |s.pc| && (s.pc[i].LoadSymbol? || s.pc[i].StoreSymbol?) :: s.res[i] == s.symbol)
    && (forall i | 0 <= i < |s.pc| && s.pc[i].Stored() :: LETTER_A <= s.res[i] < s.symbol)
    && (forall i, k | 0 <= i < k < |s.pc| && s.pc[i].Stored() && s.pc[k].Stored() :: s.res[i] != s.res[k])
  }

  lemma Exclusive(s: State, i: nat, k: nat)
    requires Inv(s) && i < |s.pc| && k < |s.pc| && s.pc[i].InCritical() && s.pc[k].InCritical()
    ensures i == k
  {
    assert Pair(s, i, k) && Pair(s, k, i) && Local(s, i) && Local(s, k);
  }

  lemma LocalOwn(s: State, i: nat)
    requires s.Shaped() && i < |s.pc| && Local(s, i)
    requires s.pc[i].Reread? ==> s.number[s.pc[i].j] >= 0
    ensures Local(Next(s, i), i)
  {
  }

  lemma LocalOther(s: State, p: nat, i: nat)
    requires s.Shaped() && p < |s.pc| && i < |s.pc| && i != p && Local(s, i)
    requires s.pc[p].StoreSymbol? ==> !s.pc[i].StoreSymbol?
    ensures Local(Next(s, p), i)
  {
  }

  lemma LocalKept(s: State, p: nat, i: nat)
    requires Inv(s) && p < |s.pc| && i < |s.pc|
    ensures Local(Next(s, p), i)
  {
    assert Local(s, i);
    if i == p {
      if s.pc[i].Reread? { assert Local(s, s.pc[i].j); }
      LocalOwn(s, i);
    } else {
      if s.pc[p].StoreSymbol? && s.pc[i].StoreSymbol? { Exclusive(s, i, p); }
      LocalOther(s, p, i);
    }
  }

  /** What a step of process p can do to the parts of the state the pair conditions speak of. */
  ghost predicate Moves(s: State, t: State, p: nat)
    requires s.Shaped() && t.Shaped() && |s.pc| == |t.pc| && p < |s.pc|
  {
    && t.pc == s.pc[p := t.pc[p]]
    && t.number == (match s.pc[p]
                    case Assign(max) => s.number[p := max + 1]
                    case Release => s.number[p := 0]
                    case _ => s.number)
    && (s.pc[p].Assigned() ==> t.pc[p].Assigned())
    && (t.pc[p].InGetNumber() ==> s.pc[p].InGetNumber())
    && t.num == s.num
  }

  lemma NextMoves(s: State, p: nat)
    requires s.Shaped() && p < |s.pc|
    ensures Moves(s, Next(s, p), p)
  {
  }

  /** The order among tickets still held outlives every step of any other process. */
  lemma BeforeOther(s: State, t: State, p: nat, i: nat, k: nat)
    requires s.Shaped() && t.Shaped() && |s.pc| == |t.pc| && p < |s.pc| && i < |s.pc| && k < |s.pc|
    requires Moves(s, t, p) && p != i && i != k && Local(s, k) && Pair(s, i, k)
    requires Passed(s.pc[i], k) && t.number[k] > 0
    ensures Before(t, i, k)
  {
  }

  /** Worker i passes k only when k holds no ticket or a later one. */
  lemma BeforeOwn(s: State, i: nat, k: nat)
    requires s.Shaped() && i < |s.pc| && k < |s.pc| && i != k && Pair(s, i, k)
    requires Passed(Next(s, i).pc[i], k) && Next(s, i).number[k] > 0
    ensures Before(Next(s, i), i, k)
  {
  }

  lemma LearntOther(s: State, t: State, p: nat, i: nat, k: nat)
    requires s.Shaped() && t.Shaped() && |s.pc| == |t.pc| && p < |s.pc| && i < |s.pc| && k < |s.pc|
    requires Moves(s, t, p) && p != i && Learnt(s, i, k)
    ensures Learnt(t, i, k)
  {
  }

  lemma LearntOwn(s: State, i: nat, k: nat)
    requires s.Shaped() && i < |s.pc| && k < |s.pc| && Learnt(s, i, k) && Local(s, k)
    ensures Learnt(Next(s, i), i, k)
  {
  }

  /** A load by the scanner k itself. */
  lemma WillSeeScanner(s: State, i: nat, k: nat)
    requires s.Shaped() && i < |s.pc| && k < |s.pc| && i != k
    requires WillSee(s, k, i) && s.number[i] > 0 && Local(s, k)
    ensures WillSee(Next(s, k), k, i)
  {
  }

  /** A step of the worker i: it learns of k only when k is outside the region choosing[k] guards. */
  lemma WillSeeWorker(s: State, i: nat, k: nat)
    requires s.Shaped() && i < |s.pc| && k < |s.pc| && i != k && Checked(Next(s, i).pc[i], k)
    requires Checked(s.pc[i], k) ==> WillSee(s, k, i)
    requires Local(s, k)
    ensures WillSee(Next(s, i), k, i)
  {
    NextMoves(s, i);
  }

  /**
   * The torn scan: when the holder j of a larger ticket gives it up between the two loads of k,
   * it comes from its critical section, so no i that k must respect held a smaller ticket.
   */
  lemma WillSeeOther(s: State, t: State, p: nat, i: nat, k: nat)
    requires s.Shaped() && t.Shaped() && |s.pc| == |t.pc| && p < |s.pc| && i < |s.pc| && k < |s.pc|
    requires Moves(s, t, p) && p != i && p != k && i != k
    requires WillSee(s, k, i) && s.number[i] > 0 && Local(s, p) && Pair(s, p, i)
    ensures WillSee(t, k, i)
  {
  }

  lemma WillSeeKept(s: State, p: nat, i: nat, k: nat)
    requires Inv(s) && p < |s.pc| && i < |s.pc| && k < |s.pc|
    requires Checked(Next(s, p).pc[i], k)
    ensures WillSee(Next(s, p), k, i)
  {
    NextMoves(s, p);
    assert Pair(s, i, k) && Local(s, i) && Local(s, k);
    if i == k {
      assert !Next(s, p).pc[k].Test?;
    } else if p == k {
      WillSeeScanner(s, i, k);
    } else if p == i {
      WillSeeWorker(s, i, k);
    } else {
      assert Pair(s, p, i) && Local(s, p);
      WillSeeOther(s, Next(s, p), p, i, k);
    }
  }

  lemma PairKept(s: State, p: nat, i: nat, k: nat)
    requires Inv(s) && p < |s.pc| && i < |s.pc| && k < |s.pc|
    ensures Pair(Next(s, p), i, k)
  {
    var t := Next(s, p);
    NextMoves(s, p);
    assert Pair(s, i, k) && Local(s, k);
    if Checked(t.pc[i], k) { WillSeeKept(s, p, i, k); }
    if p == i { LearntOwn(s, i, k); } else { LearntOther(s, t, p, i, k); }
    if Passed(t.pc[i], k) && i != k && t.number[k] > 0 {
      if p == i { BeforeOwn(s, i, k); } else { BeforeOther(s, t, p, i, k); }
    }
  }

  lemma InvKept(s: State, p: nat)
    requires Inv(s) && p < |s.pc|
    ensures Inv(Next(s, p))
  {
    var t := Next(s, p);
    forall i | 0 <= i < |t.pc| ensures Local(t, i) { LocalKept(s, p, i); }
    forall i, k | 0 <= i < |t.pc| && 0 <= k < |t.pc| ensures Pair(t, i, k) { PairKept(s, p, i, k); }
    assert Local(s, p);
    SymbolKept(s, p);
    NextLetters(s, p);
    NextMoves(s, p);
    if s.pc[p].StoreSymbol? {
      forall i | 0 <= i < |s.pc| && s.pc[i].InCritical() ensures i == p { Exclusive(s, i, p); }
    }
    OwnLettersKept(s, t, p);
  }

  /** Only line 67 writes a result, and only line 68 writes symbol. */
  lemma NextLetters(s: State, p: nat)
    requires s.Shaped() && p < |s.pc|
    ensures var t, q := Next(s, p), Next(s, p).pc[p];
            && t.res == (if s.pc[p].LoadResult? then s.res[p := s.symbol] else s.res)
            && t.symbol == (if s.pc[p].StoreSymbol? then s.pc[p].v + 1 else s.symbol)
            && (q.LoadSymbol? || q.StoreSymbol? ==> s.pc[p].LoadResult? || s.pc[p].LoadSymbol?)
            && (q.Stored() ==> s.pc[p].Stored() || s.pc[p].StoreSymbol?)
  {
  }

  lemma OwnLettersKept(s: State, t: State, p: nat)
    requires s.Shaped() && t.Shaped() && |s.pc| == |t.pc| && p < |s.pc|
    requires OwnLetters(s) && Local(s, p) && s.symbol >= LETTER_A && Moves(s, t, p)
    requires t.res == (if s.pc[p].LoadResult? then s.res[p := s.symbol] else s.res)
    requires t.symbol == (if s.pc[p].StoreSymbol? then s.pc[p].v + 1 else s.symbol)
    requires var q := t.pc[p];
             && (q.LoadSymbol? || q.StoreSymbol? ==> s.pc[p].LoadResult? || s.pc[p].LoadSymbol?)
             && (q.Stored() ==> s.pc[p].Stored() || s.pc[p].StoreSymbol?)
    requires s.pc[p].StoreSymbol? ==> forall i | 0 <= i < |s.pc| && s.pc[i].InCritical() :: i == p
    ensures OwnLetters(t)
  {
  }

  lemma SymbolKept(s: State, p: nat)
    requires s.Shaped() && p < |s.pc| && Local(s, p) && s.symbol == LETTER_A + Handed(s.pc)
    ensures Next(s, p).symbol == LETTER_A + Handed(Next(s, p).pc)
  {
    NextMoves(s, p);
    HandedUpdate(s.pc, p, Next(s, p).pc[p]);
  }

  lemma InvAllocate(s: State)
    requires Inv(s) && s.num < |s.pc|
    ensures Inv(Apply(s, Allocate))
  {
    var t := Apply(s, Allocate);
    assert Local(s, s.num);
    forall i | 0 <= i < |t.pc| ensures Local(t, i) { assert Local(s, i); }
    forall i, k | 0 <= i < |t.pc| && 0 <= k < |t.pc| ensures Pair(t, i, k) {
      assert Pair(s, i, k);
    }
    HandedUpdate(s.pc, s.num, Announce);
  }

  lemma InvSpawn(s: State, w: nat)
    requires Inv(s) && w < |s.pc| && s.pc[w].Ticketed?
    ensures Inv(Apply(s, Spawn(w)))
  {
    var t := Apply(s, Spawn(w));
    forall i | 0 <= i < |t.pc| ensures Local(t, i) { assert Local(s, i); }
    forall i, k | 0 <= i < |t.pc| && 0 <= k < |t.pc| ensures Pair(t, i, k) {
      assert Pair(s, i, k);
    }
    HandedUpdate(s.pc, w, t.pc[w]);
  }

  lemma InvApply(s: State, a: Action)
    requires Inv(s)
    ensures Inv(Apply(s, a))
  {
    match a
    case Allocate => if s.num < |s.pc| { InvAllocate(s); }
    case Spawn(i) => if i < |s.pc| && s.pc[i].Ticketed? { InvSpawn(s, i); }
    case Step(i) => if i < |s.pc| { InvKept(s, i); }
  }

  lemma {:induction false} InvExec(s: State, acts: seq<Action>)
    requires Inv(s)
    ensures Inv(Exec(s, acts))
  {
    if acts != [] {
      InvExec(s, acts[..|acts| - 1]);
      InvApply(Exec(s, acts[..|acts| - 1]), acts[|acts| - 1]);
    }
  }

  lemma Reachable(n: nat, acts: seq<Action>)
    ensures Inv(Exec(Initial(n), acts))
  {
    Counting.CountZero(Initial(n).pc, (p: Pc) => p.Stored());
    InvExec(Initial(n), acts);
  }

  // ----- first come, first served

  /** As long as i holds its ticket, k has or will get a larger one. */
  ghost predicate Ahead(s: State, i: nat, k: nat)
    requires s.Shaped() && i < |s.pc| && k < |s.pc|
  {
    s.pc[i].Holds() ==> WillSee(s, k, i) && (s.number[k] > 0 ==> s.number[i] < s.number[k])
  }

  lemma AheadOther(s: State, t: State, p: nat, i: nat, k: nat)
    requires s.Shaped() && t.Shaped() && |s.pc| == |t.pc| && p < |s.pc| && i < |s.pc| && k < |s.pc|
    requires Moves(s, t, p) && p != i && p != k && i != k && s.number[i] > 0
    requires s.pc[i].Holds() && Ahead(s, i, k) && Local(s, p) && Pair(s, p, i)
    ensures Ahead(t, i, k)
  {
    WillSeeOther(s, t, p, i, k);
  }

  lemma AheadKept(s: State, p: nat, i: nat, k: nat)
    requires Inv(s) && p < |s.pc| && i < |s.pc| && k < |s.pc| && i != k
    requires s.pc[i].Assigned() && Ahead(s, i, k)
    ensures Next(s, p).pc[i].Assigned() && Ahead(Next(s, p), i, k)
  {
    NextMoves(s, p);
    assert Local(s, i) && Local(s, k) && Local(s, p) && Pair(s, p, i);
    if s.pc[i].Holds() && Next(s, p).pc[i].Holds() {
      if p == k {
        WillSeeScanner(s, i, k);
      } else if p != i {
        AheadOther(s, Next(s, p), p, i, k);
      }
    }
  }

  lemma AheadApply(s: State, a: Action, i: nat, k: nat)
    requires Inv(s) && i < |s.pc| && k < |s.pc| && i != k && s.pc[i].Assigned() && Ahead(s, i, k)
    ensures Apply(s, a).pc[i].Assigned() && Ahead(Apply(s, a), i, k)
  {
    match a
    case Step(p) => if p < |s.pc| { AheadKept(s, p, i, k); }
    case Allocate => if s.num < |s.pc| { assert Local(s, s.num); }
    case _ =>
  }

  lemma {:induction false} AheadExec(s: State, acts: seq<Action>, i: nat, k: nat)
    requires Inv(s) && i < |s.pc| && k < |s.pc| && i != k && s.pc[i].Assigned() && Ahead(s, i, k)
    ensures Exec(s, acts).pc[i].Assigned() && Ahead(Exec(s, acts), i, k)
  {
    if acts != [] {
      AheadExec(s, acts[..|acts| - 1], i, k);
      InvExec(s, acts[..|acts| - 1]);
      AheadApply(Exec(s, acts[..|acts| - 1]), acts[|acts| - 1], i, k);
    }
  }

  // ----- the theorems

  /** At most one worker is between the end of its scan and number[i] = 0, whatever the schedule. */
  lemma MutualExclusion(n: nat, acts: seq<Action>, i: nat, k: nat)
    requires i < n && k < n
    requires Exec(Initial(n), acts).pc[i].InCritical() && Exec(Initial(n), acts).pc[k].InCritical()
    ensures i == k
  {
    Reachable(n, acts);
    Exclusive(Exec(Initial(n), acts), i, k);
  }

  /**
   * Whoever holds a ticket when another process announces itself is served first: until it gives
   * the ticket back, the other one's is larger and the other one does not enter.
   */
  lemma DoorwayOrder(n: nat, before: seq<Action>, after: seq<Action>, i: nat, k: nat)
    requires i < n && k < n
    requires var s := Exec(Initial(n), before);
             s.pc[i].Holds() && (s.pc[k].Unused? || s.pc[k].Announce?)
    ensures var t := Exec(Exec(Initial(n), before), after);
            t.pc[i].Holds() ==> !t.pc[k].InCritical() && (t.number[k] > 0 ==> t.number[i] < t.number[k])
  {
    var s := Exec(Initial(n), before);
    var t := Exec(s, after);
    Reachable(n, before);
    assert Local(s, k);
    AheadExec(s, after, i, k);
    InvExec(s, after);
    assert Local(t, i) && Local(t, k) && Pair(t, k, i);
  }

  /**
   * The two-step increment of line 68 loses and repeats nothing: symbol always stands for the
   * number of letters handed out, and two workers past line 67 have taken different letters.
   */
  lemma LettersCounted(n: nat, acts: seq<Action>, i: nat, k: nat)
    requires i < n && k < n && i != k
    ensures var s := Exec(Initial(n), acts);
            && s.symbol == 'a' as int + Handed(s.pc)
            && (s.pc[i].StoreSymbol? ==> s.pc[i].v == s.symbol)
            && (s.pc[i].Took() ==> if s.pc[i].Stored() then 'a' as int <= s.res[i] < s.symbol else s.res[i] == s.symbol)
            && (s.pc[i].Took() && s.pc[k].Took() ==> s.res[i] != s.res[k])
  {
    Reachable(n, acts);
    var s := Exec(Initial(n), acts);
    assert Local(s, i) && Local(s, k);
    if s.pc[i].InCritical() && s.pc[k].InCritical() { Exclusive(s, i, k); }
  }

  // ----- equal tickets

  /** A schedule goes on after another one. */
  lemma {:induction false} ExecConcat(s: State, a: seq<Action>, b: seq<Action>)
    requires s.Shaped()
    ensures Exec(s, a + b) == Exec(Exec(s, a), b)
  {
    if b == [] {
      assert a + b == a;
    } else {
      ExecConcat(s, a, b[..|b| - 1]);
      assert (a + b)[..|a + b| - 1] == a + b[..|b| - 1];
    }
  }

  lemma ExecOne(s: State, a: Action)
    requires s.Shaped()
    ensures Exec(s, [a]) == Apply(s, a)
  {
    assert [a][..0] == [];
  }

  lemma ExecTwo(s: State, a: Action, b: Action)
    requires s.Shaped()
    ensures Exec(s, [a, b]) == Apply(Apply(s, a), b)
  {
    ExecConcat(s, [a], [b]);
    ExecOne(s, a);
    ExecOne(Apply(s, a), b);
    assert [a] + [b] == [a, b];
  }

  /** Processes 0 and 1 stand at p side by side, and nobody holds a ticket. */
  ghost predicate Twins(s: State, p: Pc) {
    s.Shaped() && |s.pc| >= 2 && s.pc[0] == s.pc[1] == p && forall k | 0 <= k < |s.pc| :: s.number[k] == 0
  }

  /** One step of each leaves them side by side, as long as they only announce themselves and scan. */
  lemma Lockstep(s: State, p: Pc)
    requires Twins(s, p) && (p.Announce? || (p.Test? && p.max == 0))
    ensures var q := if p.Announce? then Test(0, 0) else ScanFrom(|s.pc|, p.j + 1, 0);
            Twins(Exec(s, [Step(0), Step(1)]), q)
  {
    ExecTwo(s, Step(0), Step(1));
  }

  /** Both store the same ticket and report it to their clients. */
  lemma TwinAssign(s: State, both: seq<Action>)
    requires Twins(s, Assign(0)) && both == [Step(0), Step(1)]
    ensures var t := Exec(s, both + both);
            && t.pc[0] == t.pc[1] == Retract
            && t.number[0] == t.number[1] == t.ticket[0] == t.ticket[1] == 1
  {
    ExecTwo(s, Step(0), Step(1));
    ExecConcat(s, both, both);
    ExecTwo(Exec(s, both), Step(0), Step(1));
  }

  /** From any point of their scans both reach the store of line 47 with a maximum of 0. */
  lemma {:induction false} TwinScans(s: State, j: nat) returns (acts: seq<Action>)
    requires Twins(s, ScanFrom(|s.pc|, j, 0))
    ensures Twins(Exec(s, acts), Assign(0))
    decreases |s.pc| - j
  {
    acts := [];
    if j < |s.pc| {
      Lockstep(s, Test(j, 0));
      var both := [Step(0), Step(1)];
      var rest := TwinScans(Exec(s, both), j + 1);
      acts := both + rest;
      ExecConcat(s, both, rest);
    }
  }

  /** With two or more slots overlapping scans can hand out equal tickets, so line 65 needs its tie-break. */
  lemma EqualTicketsArise(n: nat) returns (acts: seq<Action>)
    requires n >= 2
    ensures var s := Exec(Initial(n), acts);
            && s.pc[0] == s.pc[1] == Retract
            && s.number[0] == s.number[1] == s.ticket[0] == s.ticket[1] == 1
  {
    var arrive, both := [Allocate, Allocate], [Step(0), Step(1)];
    ExecTwo(Initial(n), Allocate, Allocate);
    var s := Exec(Initial(n), arrive);
    Lockstep(s, Announce);
    var scans := TwinScans(Exec(s, both), 0);
    TwinAssign(Exec(Exec(s, both), scans), both);
    acts := arrive + (both + (scans + (both + both)));
    ExecConcat(Initial(n), arrive, both + (scans + (both + both)));
    ExecConcat(s, both, scans + (both + both));
    ExecConcat(Exec(s, both), scans, both + both);
  }
}
