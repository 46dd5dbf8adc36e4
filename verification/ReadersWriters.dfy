/**
 * Readers and writers over five semaphores and a shared counter (unix-lab-04/rw.c), with the
 * operation lists and the operation counts that are actually passed to semop.
 */
module ReadersWriters {
  import opened Semaphores
  import Counting

  const WAITING_READERS: nat := 0
  const ACTIVE_READERS: nat := 1
  const ACTIVE_WRITER: nat := 2
  const WAITING_WRITERS: nat := 3
  const BIN_WRITER: nat := 4

  const START_READ: seq<Op> :=
    [Op(WAITING_READERS, 1), Op(BIN_WRITER, 0), Op(WAITING_WRITERS, 0), Op(ACTIVE_READERS, 1), Op(WAITING_READERS, -1)]
  const STOP_READ: seq<Op> := [Op(ACTIVE_READERS, -1)]
  const START_WRITE: seq<Op> :=
    [Op(WAITING_WRITERS, 1), Op(ACTIVE_READERS, 0), Op(BIN_WRITER, -1), Op(WAITING_WRITERS, -1)]
  const STOP_WRITE: seq<Op> := [Op(BIN_WRITER, 1)]

  datatype Pc =
    | RStart          // line 41
    | RPrint          // line 42
    | RStop           // line 43
    | WStart          // line 52
    | WLoad           // line 53, load
    | WStore(v: int)  // line 53, store
    | WPrint          // line 54
    | WStop           // line 56
  {
    predicate IsReader() { RStart? || RPrint? || RStop? }
    predicate Reading() { RPrint? || RStop? }
    predicate Writing() { WLoad? || WStore? || WPrint? || WStop? }
    predicate Incrementing() { WLoad? || WStore? }
    predicate Printing() { RPrint? || WLoad? || WStore? || WPrint? }
  }

  datatype State = State(
    sems: seq<int>,
    shm: int,
    pc: seq<Pc>,
    starts: nat,      // start_read calls granted so far
    sessions: nat,    // start_write calls granted so far
    increments: nat,  // completed (*shm)++
    printed: seq<int>)
  {
    predicate Shaped() { |sems| == 5 }

    function To(p: nat, q: Pc): State
      requires p < |pc|
    {
      this.(pc := pc[p := q])
    }

    /** A blocking semop call of process p with the first `count` elements of a list. */
    function Call(p: nat, ops: seq<Op>, count: nat, q: Pc): State
      requires Shaped() && p < |pc| && count <= |ops| && forall o | o in ops :: o.num < 5
    {
      match Semop(sems, ops[..count])
      case Blocked => this
      case Granted(t) =>
        this.(sems := t, starts := if q.RPrint? then starts + 1 else starts,
              sessions := if q.WLoad? then sessions + 1 else sessions).To(p, q)
    }
  }

  /** The next load, store, print or semop of process p. */
  function Next(s: State, p: nat): (t: State)
    requires s.Shaped()
    ensures t.Shaped() && |t.pc| == |s.pc|
  {
    if p >= |s.pc| then s else
      match s.pc[p]
      case RStart => s.Call(p, START_READ, 4, RPrint)
      case RPrint => s.(printed := s.printed + [s.shm]).To(p, RStop)
      case RStop => s.Call(p, STOP_READ, 1, RStart)
      case WStart => s.Call(p, START_WRITE, 4, WLoad)
      case WLoad => s.To(p, WStore(s.shm))
      case WStore(v) => s.(shm := v + 1, increments := s.increments + 1).To(p, WPrint)
      case WPrint => s.(printed := s.printed + [s.shm]).To(p, WStop)
      case WStop => s.Call(p, STOP_WRITE, 1, WStart)
  }

  function Forked(writers: nat, readers: nat): (r: seq<Pc>) {
    seq(writers, _ => WStart) + seq(readers, _ => RStart)
  }

  /** Fresh semaphores start at 0; main sets BIN_WRITER to 1. */
  function Initial(pc: seq<Pc>): State {
    State([0, 0, 0, 0, 1], 0, pc, 0, 0, 0, [])
  }

  function Run(s: State, schedule: seq<nat>): (t: State)
    requires s.Shaped()
    ensures t.Shaped() && |t.pc| == |s.pc|
  {
    if schedule == [] then s else Next(Run(s, schedule[..|schedule| - 1]), schedule[|schedule| - 1])
  }

  // ----- the invariant: what each semaphore counts

  function Readers(pc: seq<Pc>): nat { Counting.Count(pc, (p: Pc) => p.Reading()) }
  function Writers(pc: seq<Pc>): nat { Counting.Count(pc, (p: Pc) => p.Writing()) }

  /** Writers that have not completed their increment, and processes that have not printed yet. */
  function ToIncrement(pc: seq<Pc>): nat { Counting.Count(pc, (p: Pc) => p.Incrementing()) }
  function ToPrint(pc: seq<Pc>): nat { Counting.Count(pc, (p: Pc) => p.Printing()) }

  ghost predicate Inv(s: State) {
    && s.Shaped()
    && s.sems[BIN_WRITER] >= 0 && s.sems[BIN_WRITER] + Writers(s.pc) == 1
    && s.sems[ACTIVE_READERS] == Readers(s.pc)
    && s.sems[WAITING_READERS] == s.starts
    && s.sems[WAITING_WRITERS] == s.sems[ACTIVE_WRITER] == 0
    && s.shm == s.increments
    && s.shm + ToIncrement(s.pc) == s.sessions
    && |s.printed| + ToPrint(s.pc) == s.starts + s.sessions
    && (forall p | 0 <= p < |s.pc| && s.pc[p].WStore? :: s.pc[p].v == s.shm)
    && Ascending(s.printed, s.shm)
  }

  /** The printed values never decrease and never exceed the counter. */
  ghost predicate Ascending(printed: seq<int>, last: int) {
    && (forall k | 0 <= k < |printed| :: 0 <= printed[k] <= last)
    && (forall j, k | 0 <= j < k < |printed| :: printed[j] <= printed[k])
  }

  /** The four operations executed by a starting reader wait for BIN_WRITER to be 0. */
  lemma ReadEntry(sems: seq<int>, ops: seq<Op>)
    requires |sems| == 5 && sems[WAITING_READERS] >= 0 && sems[ACTIVE_READERS] >= 0
    requires ops == START_READ[..4]
    ensures Semop(sems, ops) ==
            if sems[BIN_WRITER] == 0 && sems[WAITING_WRITERS] == 0
            then Granted(sems[WAITING_READERS := sems[WAITING_READERS] + 1][ACTIVE_READERS := sems[ACTIVE_READERS] + 1])
            else Blocked
  {
    var t := sems[WAITING_READERS := sems[WAITING_READERS] + 1];
    assert t[BIN_WRITER := t[BIN_WRITER] + 0] == t == t[WAITING_WRITERS := t[WAITING_WRITERS] + 0];
    assert ops == [Op(WAITING_READERS, 1), Op(BIN_WRITER, 0), Op(WAITING_WRITERS, 0), Op(ACTIVE_READERS, 1)];
    assert ops[1..] == [Op(BIN_WRITER, 0), Op(WAITING_WRITERS, 0), Op(ACTIVE_READERS, 1)];
    assert ops[2..] == [Op(WAITING_WRITERS, 0), Op(ACTIVE_READERS, 1)] && ops[3..] == [Op(ACTIVE_READERS, 1)];
    SemopCons(sems, ops, Op(WAITING_READERS, 1), ops[1..]);
    SemopCons(t, ops[1..], Op(BIN_WRITER, 0), ops[2..]);
    SemopCons(t, ops[2..], Op(WAITING_WRITERS, 0), ops[3..]);
    SemopOne(t, ops[3..], Op(ACTIVE_READERS, 1));
  }

  /** A starting writer waits until no reader and no writer is inside; WAITING_WRITERS returns to its old value. */
  lemma WriteEntry(sems: seq<int>, ops: seq<Op>)
    requires |sems| == 5 && sems[WAITING_WRITERS] >= 0 && sems[BIN_WRITER] >= 0
    requires ops == START_WRITE[..4]
    ensures Semop(sems, ops) ==
            if sems[ACTIVE_READERS] == 0 && sems[BIN_WRITER] > 0
            then Granted(sems[BIN_WRITER := sems[BIN_WRITER] - 1]) else Blocked
  {
    var t := sems[WAITING_WRITERS := sems[WAITING_WRITERS] + 1];
    var u := t[BIN_WRITER := t[BIN_WRITER] - 1];
    assert t[ACTIVE_READERS := t[ACTIVE_READERS] + 0] == t;
    assert ops == [Op(WAITING_WRITERS, 1), Op(ACTIVE_READERS, 0), Op(BIN_WRITER, -1), Op(WAITING_WRITERS, -1)];
    assert ops[1..] == [Op(ACTIVE_READERS, 0), Op(BIN_WRITER, -1), Op(WAITING_WRITERS, -1)];
    assert ops[2..] == [Op(BIN_WRITER, -1), Op(WAITING_WRITERS, -1)] && ops[3..] == [Op(WAITING_WRITERS, -1)];
    SemopCons(sems, ops, Op(WAITING_WRITERS, 1), ops[1..]);
    SemopCons(t, ops[1..], Op(ACTIVE_READERS, 0), ops[2..]);
    SemopCons(t, ops[2..], Op(BIN_WRITER, -1), ops[3..]);
    SemopOne(u, ops[3..], Op(WAITING_WRITERS, -1));
    assert u[WAITING_WRITERS := u[WAITING_WRITERS] - 1] == sems[BIN_WRITER := sems[BIN_WRITER] - 1];
  }

  lemma ReadExit(sems: seq<int>, ops: seq<Op>)
    requires |sems| == 5 && ops == STOP_READ[..1]
    ensures Semop(sems, ops) ==
            if sems[ACTIVE_READERS] > 0 then Granted(sems[ACTIVE_READERS := sems[ACTIVE_READERS] - 1]) else Blocked
  {
    SemopOne(sems, ops, Op(ACTIVE_READERS, -1));
  }

  lemma WriteExit(sems: seq<int>, ops: seq<Op>)
    requires |sems| == 5 && sems[BIN_WRITER] >= 0 && ops == STOP_WRITE[..1]
    ensures Semop(sems, ops) == Granted(sems[BIN_WRITER := sems[BIN_WRITER] + 1])
  {
    SemopOne(sems, ops, Op(BIN_WRITER, 1));
  }

  /** Process p at one of the four semop calls: when it is granted, and the state it leads to. */
  lemma CallEffect(s: State, p: nat)
    requires s.Shaped() && p < |s.pc| && forall k | 0 <= k < 5 :: s.sems[k] >= 0
    ensures match s.pc[p]
            case RStart => Next(s, p) ==
              if s.sems[BIN_WRITER] == 0 && s.sems[WAITING_WRITERS] == 0
              then s.(sems := s.sems[WAITING_READERS := s.sems[WAITING_READERS] + 1]
                                    [ACTIVE_READERS := s.sems[ACTIVE_READERS] + 1],
                      starts := s.starts + 1).To(p, RPrint)
              else s
            case WStart => Next(s, p) ==
              if s.sems[ACTIVE_READERS] == 0 && s.sems[BIN_WRITER] > 0
              then s.(sems := s.sems[BIN_WRITER := s.sems[BIN_WRITER] - 1], sessions := s.sessions + 1).To(p, WLoad)
              else s
            case RStop => Next(s, p) ==
              if s.sems[ACTIVE_READERS] > 0
              then s.(sems := s.sems[ACTIVE_READERS := s.sems[ACTIVE_READERS] - 1]).To(p, RStart) else s
            case WStop => Next(s, p) == s.(sems := s.sems[BIN_WRITER := s.sems[BIN_WRITER] + 1]).To(p, WStart)
            case _ => Next(s, p).sems == s.sems
  {
    match s.pc[p]
    case RStart => ReadEntry(s.sems, START_READ[..4]);
    case WStart => WriteEntry(s.sems, START_WRITE[..4]);
    case RStop => ReadExit(s.sems, STOP_READ[..1]);
    case WStop => WriteExit(s.sems, STOP_WRITE[..1]);
    case _ =>
  }

  lemma CountsMove(pc: seq<Pc>, p: nat, q: Pc)
    requires p < |pc|
    ensures Readers(pc[p := q]) == Readers(pc) - (if pc[p].Reading() then 1 else 0) + (if q.Reading() then 1 else 0)
    ensures Writers(pc[p := q]) == Writers(pc) - (if pc[p].Writing() then 1 else 0) + (if q.Writing() then 1 else 0)
  {
    Counting.CountUpdate(pc, p, q, (p: Pc) => p.Reading());
    Counting.CountUpdate(pc, p, q, (p: Pc) => p.Writing());
  }

  lemma WorkMoves(pc: seq<Pc>, p: nat, q: Pc)
    requires p < |pc|
    ensures ToIncrement(pc[p := q])
         == ToIncrement(pc) - (if pc[p].Incrementing() then 1 else 0) + (if q.Incrementing() then 1 else 0)
    ensures ToPrint(pc[p := q]) == ToPrint(pc) - (if pc[p].Printing() then 1 else 0) + (if q.Printing() then 1 else 0)
  {
    Counting.CountUpdate(pc, p, q, (p: Pc) => p.Incrementing());
    Counting.CountUpdate(pc, p, q, (p: Pc) => p.Printing());
  }

  lemma CountsZero(pc: seq<Pc>)
    ensures Readers(pc) == 0 <==> forall p | 0 <= p < |pc| :: !pc[p].Reading()
    ensures Writers(pc) == 0 <==> forall p | 0 <= p < |pc| :: !pc[p].Writing()
  {
    Counting.CountZero(pc, (p: Pc) => p.Reading());
    Counting.CountZero(pc, (p: Pc) => p.Writing());
  }

  lemma AloneWriting(s: State, p: nat, q: nat)
    requires Inv(s) && p < |s.pc| && q < |s.pc| && s.pc[p].Writing() && s.pc[q].Writing()
    ensures p == q
  {
    Counting.CountOne(s.pc, (p: Pc) => p.Writing(), p, q);
  }

  lemma InvKept(s: State, p: nat)
    requires Inv(s)
    ensures Inv(Next(s, p))
  {
    var t := Next(s, p);
    if t != s {
      CountsMove(s.pc, p, t.pc[p]);
      WorkMoves(s.pc, p, t.pc[p]);
      CallEffect(s, p);
      if s.pc[p].WStore? {
        forall q | 0 <= q < |s.pc| && s.pc[q].WStore? ensures q == p { AloneWriting(s, p, q); }
      }
    }
  }

  lemma {:induction false} InvRun(s: State, schedule: seq<nat>)
    requires Inv(s)
    ensures Inv(Run(s, schedule))
  {
    if schedule != [] {
      InvRun(s, schedule[..|schedule| - 1]);
      InvKept(Run(s, schedule[..|schedule| - 1]), schedule[|schedule| - 1]);
    }
  }

  /** A run of rw.c with the given numbers of processes. */
  function After(writers: nat, readers: nat, schedule: seq<nat>): (s: State)
    ensures s.Shaped() && |s.pc| == writers + readers
  {
    Run(Initial(Forked(writers, readers)), schedule)
  }

  lemma AlwaysInv(writers: nat, readers: nat, schedule: seq<nat>)
    ensures Inv(After(writers, readers, schedule))
  {
    CountsZero(Forked(writers, readers));
    Counting.CountZero(Forked(writers, readers), (p: Pc) => p.Incrementing());
    Counting.CountZero(Forked(writers, readers), (p: Pc) => p.Printing());
    InvRun(Initial(Forked(writers, readers)), schedule);
  }

  // ----- the theorems

  /** BIN_WRITER and the writers inside always add up to 1: writers exclude each other. */
  lemma WritersExclude(writers: nat, readers: nat, schedule: seq<nat>, p: nat, q: nat)
    requires p < writers + readers && q < writers + readers
    ensures var s := After(writers, readers, schedule);
            && s.sems[BIN_WRITER] + Writers(s.pc) == 1
            && (s.pc[p].Writing() && s.pc[q].Writing() ==> p == q)
  {
    AlwaysInv(writers, readers, schedule);
    if After(writers, readers, schedule).pc[p].Writing() && After(writers, readers, schedule).pc[q].Writing() {
      AloneWriting(After(writers, readers, schedule), p, q);
    }
  }

  /**
   * With (*shm)++ split into its load and its store, no increment is ever lost: the counter is the
   * number of writers let in so far, but for the one that may still have its increment to do.
   */
  lemma NoLostUpdate(writers: nat, readers: nat, schedule: seq<nat>)
    ensures var s := After(writers, readers, schedule);
            s.shm == s.increments && s.shm + ToIncrement(s.pc) == s.sessions
  {
    AlwaysInv(writers, readers, schedule);
  }

  /**
   * Readers and writers print how many increments are complete, so what is printed never decreases;
   * everybody who was let in prints once.
   */
  lemma PrintsAscend(writers: nat, readers: nat, schedule: seq<nat>, p: nat)
    requires p < writers + readers
    ensures var s := After(writers, readers, schedule);
            && Ascending(s.printed, s.increments)
            && |s.printed| + ToPrint(s.pc) == s.starts + s.sessions
            && (s.pc[p].RPrint? || s.pc[p].WPrint? ==> Next(s, p).printed == s.printed + [s.increments])
  {
    AlwaysInv(writers, readers, schedule);
  }

  /** What the five semaphores count in every reachable state. */
  lemma CounterMeaning(writers: nat, readers: nat, schedule: seq<nat>)
    ensures var s := After(writers, readers, schedule);
            && s.sems[WAITING_WRITERS] == 0 && s.sems[ACTIVE_WRITER] == 0
            && s.sems[ACTIVE_READERS] == Readers(s.pc)
            && s.sems[WAITING_READERS] == s.starts
            && s.sems[BIN_WRITER] == (if exists p :: 0 <= p < |s.pc| && s.pc[p].Writing() then 0 else 1)
  {
    AlwaysInv(writers, readers, schedule);
    CountsZero(After(writers, readers, schedule).pc);
  }

  /** Who can move: exactly the processes inside, readers while a writer is inside, writers when nobody is. */
  lemma EntryRules(writers: nat, readers: nat, schedule: seq<nat>, p: nat)
    requires p < writers + readers
    ensures var s := After(writers, readers, schedule);
            var writerInside := exists q :: 0 <= q < |s.pc| && s.pc[q].Writing();
            var readerInside := exists q :: 0 <= q < |s.pc| && s.pc[q].Reading();
            Next(s, p) != s <==>
              match s.pc[p]
              case RStart => writerInside
              case WStart => !writerInside && !readerInside
              case _ => true
  {
    AlwaysInv(writers, readers, schedule);
    var s := After(writers, readers, schedule);
    CountsZero(s.pc);
    CallEffect(s, p);
    match s.pc[p]
    case RStart => assert Next(s, p) != s ==> Next(s, p).pc[p] == RPrint;
    case WStart => assert Next(s, p) != s ==> Next(s, p).pc[p] == WLoad;
    case RStop => assert Next(s, p).pc[p] == RStart;
    case WStop => assert Next(s, p).pc[p] == WStart;
    case _ => assert Next(s, p).pc[p] != s.pc[p];
  }

  // ----- whole sessions

  lemma RunTwo(s: State, p: nat, q: nat)
    requires s.Shaped()
    ensures Run(s, [p]) == Next(s, p) && Run(s, [p, q]) == Next(Next(s, p), q)
  {
    assert [p][..0] == [] && [p, q][..1] == [p];
  }

  lemma RunThree(s: State, p: nat)
    requires s.Shaped()
    ensures Run(s, [p, p, p]) == Next(Next(Next(s, p), p), p)
  {
    RunTwo(s, p, p);
    assert [p, p, p][..2] == [p, p];
  }

  lemma RunFive(s: State, p: nat)
    requires s.Shaped()
    ensures Run(s, [p, p, p, p, p]) == Next(Run(Next(s, p), [p, p, p]), p)
  {
    RunThree(s, p);
    RunThree(Next(s, p), p);
    assert [p, p, p, p, p][..4] == [p, p, p, p] && [p, p, p, p][..3] == [p, p, p];
  }

  lemma WriterStores(s: State, p: nat)
    requires s.Shaped() && p < |s.pc| && s.pc[p].WLoad?
    ensures Next(Next(s, p), p) == s.(shm := s.shm + 1, increments := s.increments + 1).To(p, WPrint)
  {
    assert Next(s, p) == s.To(p, WStore(s.shm));
    assert s.pc[p := WStore(s.shm)][p := WPrint] == s.pc[p := WPrint];
  }

  lemma WriterInside(s: State, p: nat)
    requires s.Shaped() && p < |s.pc| && s.pc[p].WLoad?
    ensures Run(s, [p, p, p]) ==
            s.(shm := s.shm + 1, increments := s.increments + 1, printed := s.printed + [s.shm + 1]).To(p, WStop)
  {
    WriterStores(s, p);
    RunThree(s, p);
    assert s.pc[p := WPrint][p := WStop] == s.pc[p := WStop];
  }

  /** A writer inside increments the counter by one and prints the result, whoever else is inside. */
  lemma WriterIncrements(writers: nat, readers: nat, schedule: seq<nat>, p: nat)
    requires p < writers + readers && After(writers, readers, schedule).pc[p].WLoad?
    ensures var s := After(writers, readers, schedule);
            var t := Run(s, [p, p, p]);
            && t.shm == s.shm + 1 && t.printed == s.printed + [s.shm + 1]
            && t.sems == s.sems && t.pc == s.pc[p := WStop] && t.sessions == s.sessions
  {
    WriterInside(After(writers, readers, schedule), p);
  }

  /** A writer alone is let in, increments, prints and leaves everything else as it was. */
  lemma WriterSession(writers: nat, readers: nat, schedule: seq<nat>, p: nat)
    requires p < writers + readers && After(writers, readers, schedule).pc[p].WStart?
    requires forall q | 0 <= q < writers + readers ::
               !After(writers, readers, schedule).pc[q].Reading() && !After(writers, readers, schedule).pc[q].Writing()
    ensures var s := After(writers, readers, schedule);
            var t := Run(s, [p, p, p, p, p]);
            && t.shm == s.shm + 1 && t.printed == s.printed + [s.shm + 1] && t.sessions == s.sessions + 1
            && t.sems == s.sems && t.pc == s.pc
  {
    AlwaysInv(writers, readers, schedule);
    var s := After(writers, readers, schedule);
    CountsZero(s.pc);
    CallEffect(s, p);
    WriterInside(Next(s, p), p);
    CallEffect(Run(Next(s, p), [p, p, p]), p);
    RunFive(s, p);
  }

  /** Once a writer has left, the readers still inside are the only ones that can move, until all have left. */
  lemma LeftoversFirst(writers: nat, readers: nat, schedule: seq<nat>, p: nat)
    requires p < writers + readers
    requires var s := After(writers, readers, schedule);
             s.sems[BIN_WRITER] == 1 && s.sems[ACTIVE_READERS] > 0
    ensures var s := After(writers, readers, schedule);
            Next(s, p) != s <==> s.pc[p].Reading()
  {
    AlwaysInv(writers, readers, schedule);
    CountsZero(After(writers, readers, schedule).pc);
    EntryRules(writers, readers, schedule, p);
  }

  lemma {:induction false} RolesKept(s: State, schedule: seq<nat>, p: nat)
    requires s.Shaped() && p < |s.pc|
    ensures Run(s, schedule).pc[p].IsReader() == s.pc[p].IsReader()
  {
    if schedule != [] {
      RolesKept(s, schedule[..|schedule| - 1], p);
    }
  }

  ghost predicate CanStep(s: State)
    requires s.Shaped()
  {
    exists p :: Next(s, p) != s
  }

  /** Some process can step in every reachable state exactly if there is a writer. */
  lemma DeadlockFreeIff(writers: nat, readers: nat)
    ensures (forall schedule :: CanStep(After(writers, readers, schedule))) <==> writers > 0
  {
    if writers > 0 {
      forall schedule ensures CanStep(After(writers, readers, schedule)) {
        var s := After(writers, readers, schedule);
        if p: nat :| p < |s.pc| && (s.pc[p].Writing() || s.pc[p].Reading()) {
          EntryRules(writers, readers, schedule, p);
        } else {
          RolesKept(Initial(Forked(writers, readers)), schedule, 0);
          EntryRules(writers, readers, schedule, 0);
        }
      }
    } else {
      var s := After(writers, readers, []);
      forall p | 0 <= p < |s.pc| ensures Next(s, p) == s { EntryRules(writers, readers, [], p); }
      assert !CanStep(s);
    }
  }

  /** A writer about to increment and a reader about to print, inside together. */
  ghost predicate Overlap(s: State) {
    exists p: nat, q: nat | p < |s.pc| && q < |s.pc| :: s.pc[p].WLoad? && s.pc[q].RPrint?
  }

  /** The first writer starts, then the first reader. */
  lemma OverlapExample(writers: nat, readers: nat)
    requires writers > 0 && readers > 0
    ensures Overlap(After(writers, readers, [0, writers]))
  {
    var s0 := Initial(Forked(writers, readers));
    RunTwo(s0, 0, writers);
    CallEffect(s0, 0);
    var s1 := Next(s0, 0);
    assert s1.pc[0] == WLoad && s1.sems == [0, 0, 0, 0, 0];
    CallEffect(s1, writers);
    var s2 := After(writers, readers, [0, writers]);
    assert s2 == Next(s1, writers) && s2.pc[0] == WLoad && s2.pc[writers] == RPrint;
  }

  /** Readers and writers do not exclude each other: they can overlap as soon as there is one of each. */
  lemma OverlapIff(writers: nat, readers: nat)
    ensures (exists schedule :: Overlap(After(writers, readers, schedule))) <==> writers > 0 && readers > 0
  {
    if writers > 0 && readers > 0 {
      OverlapExample(writers, readers);
    }
    if schedule :| Overlap(After(writers, readers, schedule)) {
      var s := After(writers, readers, schedule);
      var p: nat, q: nat :| p < |s.pc| && q < |s.pc| && s.pc[p].WLoad? && s.pc[q].RPrint?;
      RolesKept(Initial(Forked(writers, readers)), schedule, p);
      RolesKept(Initial(Forked(writers, readers)), schedule, q);
    }
  }
}
