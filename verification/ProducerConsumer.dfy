/**
 * Producers and consumers over three semaphores and a shared segment (unix-lab-04/pc.c).
 * Every load and store of the shared letter, the producers' pointer and the buffer cells is a
 * step.  The buffer is a tape that grows as the producers' pointer advances.
 */
module ProducerConsumer {
  import opened Semaphores
  import Counting

  const SIZE_BUF := 128
  const SB: nat := 0
  const SE: nat := 1
  const SF: nat := 2

  const START_PRODUCE: seq<Op> := [Op(SE, -1), Op(SB, -1)]
  const STOP_PRODUCE: seq<Op> := [Op(SB, 1), Op(SF, 1)]
  const START_CONSUME: seq<Op> := [Op(SF, -1), Op(SB, -1)]
  const STOP_CONSUME: seq<Op> := [Op(SB, 1), Op(SE, 1)]

  datatype Pc =
    | PStart                // line 43
    | PLoad                 // line 50, load of *alfa
    | PStore(v: int)        // line 50, store to **ptr_prod
    | PShow                 // line 51
    | PLoadPtr              // line 53, load
    | PStorePtr(q: nat)     // line 53, store
    | PLoadAlfa             // line 54, load
    | PStoreAlfa(v: int)    // line 54, store
    | PStop                 // line 59
    | CStart                // line 72
    | CShow                 // line 79
    | CLoad                 // line 81, load of **ptr_cons
    | CStore(v: int)        // line 81, store to **ptr_cons
    | CStop                 // line 85
  {
    predicate IsProducer() { !IsConsumer() }
    predicate IsConsumer() { CStart? || CShow? || CLoad? || CStore? || CStop? }
    predicate Inside() { !PStart? && !CStart? }
  }

  datatype State = State(
    sems: seq<int>,
    tape: seq<int>,     // the cells from addr3 on that have been written
    blank: int,         // what an unwritten cell holds
    put: nat,           // *ptr_prod - addr3
    get: nat,           // *ptr_cons - addr3
    alfa: int,
    pc: seq<Pc>,
    produced: seq<int>, // what the producers have printed
    consumed: seq<int>) // what the consumers have printed
  {
    predicate Shaped() { |sems| == 3 }

    function Cell(a: nat): int {
      if a < |tape| then tape[a] else blank
    }

    function Write(a: nat, v: int): seq<int> {
      if a < |tape| then tape[a := v] else tape + seq(a - |tape|, _ => blank) + [v]
    }

    function To(p: nat, q: Pc): State
      requires p < |pc|
    {
      this.(pc := pc[p := q])
    }

    /** A blocking semop call of process p, which continues at q once it is granted. */
    function Call(p: nat, ops: seq<Op>, q: Pc): State
      requires Shaped() && p < |pc| && forall o | o in ops :: o.num < 3
    {
      match Semop(sems, ops)
      case Blocked => this
      case Granted(t) => this.(sems := t).To(p, q)
    }
  }

  /** char arithmetic: one byte. */
  function Incr(c: int): int { (c + 1) % 256 }

  /** The next load, store, print or semop of process p. */
  function Next(s: State, p: nat): (t: State)
    requires s.Shaped()
    ensures t.Shaped() && |t.pc| == |s.pc|
  {
    if p >= |s.pc| then s else
      match s.pc[p]
      case PStart => s.Call(p, START_PRODUCE, PLoad)
      case PLoad => s.To(p, PStore(s.alfa))
      case PStore(v) => s.(tape := s.Write(s.put, v)).To(p, PShow)
      case PShow => s.(produced := s.produced + [s.Cell(s.put)]).To(p, PLoadPtr)
      case PLoadPtr => s.To(p, PStorePtr(s.put))
      case PStorePtr(q) => s.(put := q + 1).To(p, PLoadAlfa)
      case PLoadAlfa => s.To(p, PStoreAlfa(s.alfa))
      case PStoreAlfa(v) => s.(alfa := Incr(v)).To(p, PStop)
      case PStop => s.Call(p, STOP_PRODUCE, PStart)
      case CStart => s.Call(p, START_CONSUME, CShow)
      case CShow => s.(consumed := s.consumed + [s.Cell(s.get)]).To(p, CLoad)
      case CLoad => s.To(p, CStore(s.Cell(s.get)))
      case CStore(v) => s.(tape := s.Write(s.get, Incr(v))).To(p, CStop)
      case CStop => s.Call(p, STOP_CONSUME, CStart)
  }

  /** The processes after main has forked them. */
  function Forked(producers: nat, consumers: nat): (r: seq<Pc>) {
    seq(producers, _ => PStart) + seq(consumers, _ => CStart)
  }

  function Initial(pc: seq<Pc>, blank: int): State {
    State([1, SIZE_BUF, 0], [], blank, 0, 0, 'a' as int, pc, [], [])
  }

  /** The state after a whole schedule, given as the sequence of the stepping processes. */
  function Run(s: State, schedule: seq<nat>): (t: State)
    requires s.Shaped()
    ensures t.Shaped() && |t.pc| == |s.pc|
  {
    if schedule == [] then s else Next(Run(s, schedule[..|schedule| - 1]), schedule[|schedule| - 1])
  }

  // ----- the invariant

  /** The k-th letter produced. */
  function Letter(k: int): int { ('a' as int + k) % 256 }

  /**
   * The books while one process may be inside: items printed by a producer but not yet posted to SF
   * or claimed from SF but not yet printed (`held`), free cells claimed from SE or not yet
   * given back (`spent`), and how far the letter, the producers' pointer and the first cell lag.
   */
  ghost predicate Ledger(s: State, held: int, spent: int, alfaLag: int, putLag: int, cellLag: int)
    requires s.Shaped()
  {
    var made, eaten := |s.produced|, |s.consumed|;
    && made - eaten == s.sems[SF] + held
    && s.sems[SE] + s.sems[SF] + held + spent == SIZE_BUF
    && s.alfa == Letter(made - alfaLag)
    && s.put == made - putLag
    && (made > 0 ==> s.Cell(0) == Letter(eaten - cellLag) && |s.tape| > 0)
  }

  /** What holds while the process inside stands at p. */
  ghost predicate Phase(s: State, p: Pc)
    requires s.Shaped()
  {
    match p
    case PLoad => Ledger(s, 0, 1, 0, 0, 0)
    case PStore(v) => Ledger(s, 0, 1, 0, 0, 0) && v == s.alfa
    case PShow => Ledger(s, 0, 1, 0, 0, 0) && s.Cell(s.put) == s.alfa && s.put < |s.tape|
    case PLoadPtr => Ledger(s, 1, 0, 1, 1, 0)
    case PStorePtr(q) => Ledger(s, 1, 0, 1, 1, 0) && q == s.put
    case PLoadAlfa => Ledger(s, 1, 0, 1, 0, 0)
    case PStoreAlfa(v) => Ledger(s, 1, 0, 1, 0, 0) && v == s.alfa
    case PStop => Ledger(s, 1, 0, 0, 0, 0)
    case CShow => Ledger(s, 1, 0, 0, 0, 0)
    case CLoad => Ledger(s, 0, 1, 0, 0, 1)
    case CStore(v) => Ledger(s, 0, 1, 0, 0, 1) && v == s.Cell(0)
    case CStop => Ledger(s, 0, 1, 0, 0, 0)
    case _ => true
  }

  function Inside(pc: seq<Pc>): nat { Counting.Count(pc, (p: Pc) => p.Inside()) }

  ghost predicate Inv(s: State) {
    && s.Shaped() && s.get == 0
    && NonNegative(s.sems)
    && s.sems[SB] + Inside(s.pc) == 1
    && (Inside(s.pc) == 0 ==> Ledger(s, 0, 0, 0, 0, 0))
    && (forall p | 0 <= p < |s.pc| && s.pc[p].Inside() :: Phase(s, s.pc[p]))
    && (forall k | 0 <= k < |s.produced| :: s.produced[k] == Letter(k))
    && (forall k | 0 <= k < |s.consumed| :: s.consumed[k] == Letter(k))
  }

  /** A list of two operations on different semaphores needs both to be possible. */
  lemma TwoOps(sems: seq<int>, ops: seq<Op>, a: Op, b: Op)
    requires ops == [a, b] && a.num < |sems| && b.num < |sems| && a.num != b.num
    ensures Semop(sems, ops) ==
            if Allows(sems[a.num], a.delta) && Allows(sems[b.num], b.delta)
            then Granted(sems[a.num := sems[a.num] + a.delta][b.num := sems[b.num] + b.delta]) else Blocked
  {
    SemopCons(sems, ops, a, [b]);
    SemopOne(sems[a.num := sems[a.num] + a.delta], [b], b);
  }

  ghost predicate NonNegative(sems: seq<int>) {
    |sems| == 3 && sems[SB] >= 0 && sems[SE] >= 0 && sems[SF] >= 0
  }

  lemma Entering(sems: seq<int>)
    requires NonNegative(sems)
    ensures Semop(sems, START_PRODUCE) ==
            if sems[SE] > 0 && sems[SB] > 0 then Granted(sems[SE := sems[SE] - 1][SB := sems[SB] - 1]) else Blocked
    ensures Semop(sems, START_CONSUME) ==
            if sems[SF] > 0 && sems[SB] > 0 then Granted(sems[SF := sems[SF] - 1][SB := sems[SB] - 1]) else Blocked
  {
    TwoOps(sems, START_PRODUCE, Op(SE, -1), Op(SB, -1));
    TwoOps(sems, START_CONSUME, Op(SF, -1), Op(SB, -1));
  }

  lemma Leaving(sems: seq<int>)
    requires NonNegative(sems)
    ensures Semop(sems, STOP_PRODUCE) == Granted(sems[SB := sems[SB] + 1][SF := sems[SF] + 1])
    ensures Semop(sems, STOP_CONSUME) == Granted(sems[SB := sems[SB] + 1][SE := sems[SE] + 1])
  {
    TwoOps(sems, STOP_PRODUCE, Op(SB, 1), Op(SF, 1));
    TwoOps(sems, STOP_CONSUME, Op(SB, 1), Op(SE, 1));
  }

  /** Only one process is inside, so a step of p inside replaces its phase by the next one. */
  lemma Alone(s: State, p: nat, q: nat)
    requires Inv(s) && p < |s.pc| && q < |s.pc| && s.pc[p].Inside() && s.pc[q].Inside()
    ensures p == q
  {
    Counting.CountOne(s.pc, (p: Pc) => p.Inside(), p, q);
  }

  lemma InsideUpdate(pc: seq<Pc>, p: nat, q: Pc)
    requires p < |pc|
    ensures Inside(pc[p := q]) == Inside(pc) - (if pc[p].Inside() then 1 else 0) + (if q.Inside() then 1 else 0)
    ensures Inside(pc) == 0 <==> forall r | 0 <= r < |pc| :: !pc[r].Inside()
  {
    Counting.CountUpdate(pc, p, q, (p: Pc) => p.Inside());
    Counting.CountZero(pc, (p: Pc) => p.Inside());
  }

  lemma LetterNext(k: int)
    ensures Letter(k + 1) == Incr(Letter(k))
  {
  }

  lemma ProduceStep(s: State, p: nat)
    requires NonNegative(s.sems) && p < |s.pc| && Phase(s, s.pc[p]) && s.pc[p].IsProducer()
    requires s.pc[p].Inside() && !s.pc[p].PStop?
    ensures var t := Next(s, p);
            t.pc[p].Inside() && Phase(t, t.pc[p]) && t.get == s.get && t.sems == s.sems
  {
    LetterNext(|s.produced| - 1);
  }

  lemma ConsumeStep(s: State, p: nat)
    requires s.Shaped() && s.get == 0 && p < |s.pc| && Phase(s, s.pc[p]) && s.pc[p].IsConsumer()
    requires s.pc[p].Inside() && !s.pc[p].CStop?
    ensures var t := Next(s, p);
            t.pc[p].Inside() && Phase(t, t.pc[p]) && t.get == s.get && t.sems == s.sems
  {
    LetterNext(|s.consumed| - 1);
  }

  /** A load, store or print of the process inside leads to the next phase. */
  lemma PhaseStep(s: State, p: nat)
    requires NonNegative(s.sems) && s.get == 0 && p < |s.pc| && Phase(s, s.pc[p])
    requires s.pc[p].Inside() && !s.pc[p].PStop? && !s.pc[p].CStop?
    ensures var t := Next(s, p);
            t.pc[p].Inside() && Phase(t, t.pc[p]) && t.get == 0 && t.sems == s.sems
  {
    if s.pc[p].IsProducer() { ProduceStep(s, p); } else { ConsumeStep(s, p); }
  }

  /** Leaving the critical region balances the books. */
  lemma PhaseStop(s: State, p: nat)
    requires NonNegative(s.sems) && s.get == 0 && p < |s.pc| && Phase(s, s.pc[p])
    requires s.pc[p].PStop? || s.pc[p].CStop?
    ensures var t := Next(s, p);
            && Ledger(t, 0, 0, 0, 0, 0) && t == s.(sems := t.sems, pc := t.pc)
            && NonNegative(t.sems) && t.sems[SB] == s.sems[SB] + 1 && !t.pc[p].Inside()
  {
    Leaving(s.sems);
  }

  /** Entering needs SB == 1, so the books were balanced; they open with one claimed unit. */
  lemma PhaseStart(s: State, p: nat)
    requires NonNegative(s.sems) && s.get == 0 && p < |s.pc| && (s.sems[SB] > 0 ==> Ledger(s, 0, 0, 0, 0, 0))
    requires s.pc[p].PStart? || s.pc[p].CStart?
    ensures var t := Next(s, p);
            || t == s
            || (&& Phase(t, t.pc[p]) && t == s.(sems := t.sems, pc := t.pc)
                && NonNegative(t.sems) && t.sems[SB] == s.sems[SB] - 1 && t.pc[p].Inside())
  {
    Entering(s.sems);
  }

  lemma LogsKept(s: State, p: nat)
    requires Inv(s)
    ensures var t := Next(s, p);
            && (forall k | 0 <= k < |t.produced| :: t.produced[k] == Letter(k))
            && (forall k | 0 <= k < |t.consumed| :: t.consumed[k] == Letter(k))
  {
  }

  lemma InvKept(s: State, p: nat)
    requires Inv(s)
    ensures Inv(Next(s, p))
  {
    var t := Next(s, p);
    if t != s {
      LogsKept(s, p);
      InsideUpdate(s.pc, p, t.pc[p]);
      InsideUpdate(t.pc, p, t.pc[p]);
      if s.pc[p].PStart? || s.pc[p].CStart? {
        PhaseStart(s, p);
      } else {
        if s.pc[p].PStop? || s.pc[p].CStop? { PhaseStop(s, p); } else { PhaseStep(s, p); }
        forall q | 0 <= q < |s.pc| && q != p ensures !s.pc[q].Inside() {
          if s.pc[q].Inside() { Alone(s, p, q); }
        }
      }
    }
  }

  lemma {:induction false} InvRun(s: State, schedule: seq<nat>)
    requires Inv(s)
    ensures Inv(Run(s, schedule))
  {
    if schedule != [] {
      InvRun(s, schedule[..|schedule| - 1]);
      InvKept(Run(s, schedule[..|schedule| - 1]), schedule[|schedule| - 1]);
    }
  }

  lemma AlwaysInv(producers: nat, consumers: nat, blank: int, schedule: seq<nat>)
    ensures Inv(Run(Initial(Forked(producers, consumers), blank), schedule))
  {
    var s := Initial(Forked(producers, consumers), blank);
    Counting.CountZero(s.pc, (p: Pc) => p.Inside());
    InvRun(s, schedule);
  }

  // ----- refinement of a bounded FIFO

  /** A queue of at most 128 letters: its steps are an insertion, a removal, or none. */
  datatype FifoStep = Put(v: int) | Take(v: int) | Internal

  ghost predicate FifoMoves(before: seq<int>, step: FifoStep, after: seq<int>) {
    match step
    case Put(v) => |before| < 128 && after == before + [v]
    case Take(v) => before == [v] + after
    case Internal => after == before
  }

  /** The queue a state stands for: printed by a producer, not yet printed by a consumer. */
  function Queue(s: State): seq<int> {
    if |s.consumed| <= |s.produced| then s.produced[|s.consumed|..] else []
  }

  /** What process p shows the outside world in its next step. */
  function Visible(s: State, p: nat): FifoStep
    requires s.Shaped()
  {
    if p >= |s.pc| then Internal
    else if s.pc[p].PShow? then Put(s.Cell(s.put))
    else if s.pc[p].CShow? then Take(s.Cell(s.get))
    else Internal
  }

  /**
   * Although the consumers' pointer never moves, every step is a step of a bounded FIFO queue: a
   * producer's print inserts when there is room, a consumer's print removes the oldest letter.
   */
  lemma RefinesFifo(producers: nat, consumers: nat, blank: int, schedule: seq<nat>, p: nat)
    ensures var s := Run(Initial(Forked(producers, consumers), blank), schedule);
            && s.get == 0
            && FifoMoves(Queue(s), Visible(s, p), Queue(Next(s, p)))
            && |Queue(s)| <= 128
  {
    AlwaysInv(producers, consumers, blank, schedule);
    var s := Run(Initial(Forked(producers, consumers), blank), schedule);
    QueueLength(s);
    if Visible(s, p) != Internal {
      assert Phase(s, s.pc[p]);
      if s.pc[p].PShow? {
        assert Queue(Next(s, p)) == Queue(s) + [s.Cell(s.put)];
      }
    }
  }

  lemma QueueLength(s: State)
    requires Inv(s)
    ensures |s.consumed| <= |s.produced| && |Queue(s)| <= 128
  {
    if exists q :: 0 <= q < |s.pc| && s.pc[q].Inside() {
      var q :| 0 <= q < |s.pc| && s.pc[q].Inside();
      assert Phase(s, s.pc[q]);
    } else {
      Counting.CountZero(s.pc, (p: Pc) => p.Inside());
    }
  }

  /** The consumers print a prefix of what the producers print, and its k-th letter is 'a' + k. */
  lemma ConsumedIsPrefix(producers: nat, consumers: nat, blank: int, schedule: seq<nat>)
    ensures var s := Run(Initial(Forked(producers, consumers), blank), schedule);
            && s.consumed <= s.produced
            && (forall k | 0 <= k < |s.produced| :: s.produced[k] == ('a' as int + k) % 256)
  {
    AlwaysInv(producers, consumers, blank, schedule);
    QueueLength(Run(Initial(Forked(producers, consumers), blank), schedule));
  }

  // ----- conservation and deadlock freedom

  /** The semaphores always account for the one process that may be inside. */
  lemma Conservation(producers: nat, consumers: nat, blank: int, schedule: seq<nat>)
    ensures var s := Run(Initial(Forked(producers, consumers), blank), schedule);
            && s.sems[SB] + Inside(s.pc) == 1
            && s.sems[SE] + s.sems[SF] + Inside(s.pc) == 128
  {
    AlwaysInv(producers, consumers, blank, schedule);
    var s := Run(Initial(Forked(producers, consumers), blank), schedule);
    if Inside(s.pc) != 0 {
      Counting.CountZero(s.pc, (p: Pc) => p.Inside());
      var q :| 0 <= q < |s.pc| && s.pc[q].Inside();
      assert Phase(s, s.pc[q]);
    }
  }

  lemma {:induction false} RolesKept(s: State, schedule: seq<nat>, p: nat)
    requires s.Shaped() && p < |s.pc|
    ensures Run(s, schedule).pc[p].IsConsumer() == s.pc[p].IsConsumer()
  {
    if schedule != [] {
      RolesKept(s, schedule[..|schedule| - 1], p);
    }
  }

  /** The process inside can always move on. */
  lemma InsideMoves(s: State, p: nat)
    requires Inv(s) && p < |s.pc| && s.pc[p].Inside()
    ensures Next(s, p) != s
  {
    if s.pc[p].PStop? || s.pc[p].CStop? {
      assert Phase(s, s.pc[p]);
      PhaseStop(s, p);
    }
    assert Next(s, p).pc[p] != s.pc[p];
  }

  ghost predicate CanStep(s: State)
    requires s.Shaped()
  {
    exists p :: Next(s, p) != s
  }

  /** With a producer and a consumer around, an idle system has a free or a filled cell. */
  lemma NeverStuck(producers: nat, consumers: nat, blank: int, schedule: seq<nat>)
    requires producers > 0 && consumers > 0
    ensures CanStep(Run(Initial(Forked(producers, consumers), blank), schedule))
  {
    AlwaysInv(producers, consumers, blank, schedule);
    var s0 := Initial(Forked(producers, consumers), blank);
    var s := Run(s0, schedule);
    Counting.CountZero(s.pc, (p: Pc) => p.Inside());
    if Inside(s.pc) != 0 {
      var q: nat :| q < |s.pc| && s.pc[q].Inside();
      InsideMoves(s, q);
    } else {
      RolesKept(s0, schedule, 0);
      RolesKept(s0, schedule, producers);
      Entering(s.sems);
      var q := if s.sems[SE] > 0 then 0 else producers;
      assert Next(s, q).pc[q] != s.pc[q];
    }
  }

  /** Steps until a lone producer has used up all free cells. */
  function Left(s: State): nat
    requires NonNegative(s.sems) && |s.pc| > 0
  {
    9 * s.sems[SE] +
    match s.pc[0]
    case PLoad => 8
    case PStore(_) => 7
    case PShow => 6
    case PLoadPtr => 5
    case PStorePtr(_) => 4
    case PLoadAlfa => 3
    case PStoreAlfa(_) => 2
    case PStop => 1
    case _ => 0
  }

  lemma LeftDecreases(s: State)
    requires NonNegative(s.sems) && |s.pc| > 0 && s.pc[0].IsProducer() && Next(s, 0) != s
    ensures var t := Next(s, 0);
            NonNegative(t.sems) && Left(t) < Left(s) && t.pc == s.pc[0 := t.pc[0]] && t.pc[0].IsProducer()
  {
    Entering(s.sems);
    Leaving(s.sems);
  }

  /** If the only process that may be inside cannot move, nobody can: there is no free cell. */
  lemma NobodyMoves(s: State)
    requires Inv(s) && |s.pc| > 0 && s.pc[0].IsProducer() && Next(s, 0) == s
    requires forall q | 0 < q < |s.pc| :: s.pc[q].PStart?
    ensures !CanStep(s) && |s.produced| == |s.consumed| + 128
  {
    Entering(s.sems);
    if s.pc[0].Inside() { InsideMoves(s, 0); }
    Counting.CountZero(s.pc, (p: Pc) => p.Inside());
  }

  /** Without consumers the free cells run out: with 128 letters in the buffer every producer blocks. */
  lemma {:induction false} FillsUp(s: State) returns (schedule: seq<nat>)
    requires Inv(s) && |s.pc| > 0 && s.pc[0].IsProducer()
    requires forall q | 0 < q < |s.pc| :: s.pc[q].PStart?
    ensures !CanStep(Run(s, schedule)) && |Run(s, schedule).produced| == |Run(s, schedule).consumed| + 128
    decreases Left(s)
  {
    if Next(s, 0) == s {
      NobodyMoves(s);
      schedule := [];
    } else {
      LeftDecreases(s);
      InvKept(s, 0);
      var rest := FillsUp(Next(s, 0));
      schedule := [0] + rest;
      RunCons(s, 0, rest);
    }
  }

  lemma {:induction false} RunConcat(s: State, a: seq<nat>, b: seq<nat>)
    requires s.Shaped()
    ensures Run(s, a + b) == Run(Run(s, a), b)
  {
    if b == [] {
      assert a + b == a;
    } else {
      RunConcat(s, a, b[..|b| - 1]);
      assert (a + b)[..|a + b| - 1] == a + b[..|b| - 1];
    }
  }

  lemma RunCons(s: State, p: nat, rest: seq<nat>)
    requires s.Shaped()
    ensures Run(s, [p] + rest) == Run(Next(s, p), rest)
    ensures Run(s, [p]) == Next(s, p)
  {
    RunConcat(s, [p], rest);
    assert [p][..0] == [];
  }

  /** Some process can step in every reachable state exactly if there are both kinds of processes. */
  lemma DeadlockFreeIff(producers: nat, consumers: nat, blank: int)
    ensures (forall schedule :: CanStep(Run(Initial(Forked(producers, consumers), blank), schedule)))
            <==> producers > 0 && consumers > 0
  {
    var s := Initial(Forked(producers, consumers), blank);
    if producers > 0 && consumers > 0 {
      forall schedule ensures CanStep(Run(s, schedule)) { NeverStuck(producers, consumers, blank, schedule); }
    } else {
      AlwaysInv(producers, consumers, blank, []);
      Entering(s.sems);
      var schedule := [];
      if producers > 0 { schedule := FillsUp(s); }
      assert !CanStep(Run(s, schedule));
    }
  }
}
