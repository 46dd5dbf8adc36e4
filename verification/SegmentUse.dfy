/**
 * How far the producers' pointer runs: every letter goes to a cell of its own and the pointer never
 * returns, so the number of cells in use is the number of letters stored so far.
 */
module SegmentUse {
  import opened ProducerConsumer
  import Counting

  /** Letters stored but not yet printed. */
  function Showing(pc: seq<Pc>): nat { Counting.Count(pc, (p: Pc) => p.PShow?) }

  /** As many cells as letters; a consumer rewrites a cell only after a letter has been printed. */
  ghost predicate OneCellEach(s: State) {
    && |s.tape| == |s.produced| + Showing(s.pc)
    && forall p | 0 <= p < |s.pc| && (s.pc[p].CLoad? || s.pc[p].CStore?) :: s.produced != []
  }

  lemma ShowingUpdate(pc: seq<Pc>, p: nat, q: Pc)
    requires p < |pc|
    ensures Showing(pc[p := q]) == Showing(pc) - (if pc[p].PShow? then 1 else 0) + (if q.PShow? then 1 else 0)
    ensures Showing(pc) == 0 <==> forall r | 0 <= r < |pc| :: !pc[r].PShow?
  {
    Counting.CountUpdate(pc, p, q, (p: Pc) => p.PShow?);
    Counting.CountZero(pc, (p: Pc) => p.PShow?);
  }

  lemma CellsKept(s: State, p: nat)
    requires Inv(s) && OneCellEach(s)
    ensures OneCellEach(Next(s, p))
  {
    if p < |s.pc| {
      var t := Next(s, p);
      ShowingUpdate(s.pc, p, t.pc[p]);
      if s.pc[p].Inside() {
        assert Phase(s, s.pc[p]);
        forall q | 0 <= q < |s.pc| && s.pc[q].PShow? ensures q == p { Alone(s, p, q); }
      }
    }
  }

  lemma {:induction false} CellsRun(s: State, schedule: seq<nat>)
    requires Inv(s) && OneCellEach(s)
    ensures OneCellEach(Run(s, schedule))
  {
    if schedule != [] {
      CellsRun(s, schedule[..|schedule| - 1]);
      InvRun(s, schedule[..|schedule| - 1]);
      CellsKept(Run(s, schedule[..|schedule| - 1]), schedule[|schedule| - 1]);
    }
  }

  /** A run of pc.c with the given numbers of processes. */
  function After(producers: nat, consumers: nat, blank: int, schedule: seq<nat>): (s: State)
    ensures s.Shaped() && |s.pc| == producers + consumers
  {
    Run(Initial(Forked(producers, consumers), blank), schedule)
  }

  lemma AlwaysCells(producers: nat, consumers: nat, blank: int, schedule: seq<nat>)
    ensures Inv(After(producers, consumers, blank, schedule))
    ensures OneCellEach(After(producers, consumers, blank, schedule))
  {
    var s := Initial(Forked(producers, consumers), blank);
    AlwaysInv(producers, consumers, blank, []);
    AlwaysInv(producers, consumers, blank, schedule);
    Counting.CountZero(s.pc, (p: Pc) => p.PShow?);
    CellsRun(s, schedule);
  }

  /** The k-th letter goes to the k-th cell, the first one that has not been written yet. */
  lemma StoresAtTheEnd(producers: nat, consumers: nat, blank: int, schedule: seq<nat>, p: nat)
    requires p < producers + consumers && After(producers, consumers, blank, schedule).pc[p].PStore?
    ensures var s := After(producers, consumers, blank, schedule);
            s.put == |s.tape| == |s.produced| && Next(s, p).tape == s.tape + [('a' as int + |s.produced|) % 256]
  {
    AlwaysCells(producers, consumers, blank, schedule);
    var s := After(producers, consumers, blank, schedule);
    assert Phase(s, s.pc[p]);
    CellsKept(s, p);
    ShowingUpdate(s.pc, p, PShow);
    forall q | 0 <= q < |s.pc| && s.pc[q].PShow? ensures false { Alone(s, p, q); }
    assert s.tape + seq(0, _ => blank) == s.tape;
  }

  // ----- upper bounds

  /** What one kind of process alone leaves untouched. */
  lemma {:induction false} OneKind(s: State, schedule: seq<nat>)
    requires s.Shaped()
    ensures (forall p | 0 <= p < |s.pc| :: s.pc[p].IsConsumer()) ==> Run(s, schedule).produced == s.produced
    ensures (forall p | 0 <= p < |s.pc| :: s.pc[p].IsProducer()) ==> Run(s, schedule).consumed == s.consumed
  {
    if schedule != [] {
      var init, p := schedule[..|schedule| - 1], schedule[|schedule| - 1];
      OneKind(s, init);
      if p < |s.pc| { RolesKept(s, init, p); }
    }
  }

  /** The cells in use never exceed the letters eaten by more than the capacity. */
  lemma CellsBound(s: State)
    requires Inv(s) && OneCellEach(s)
    ensures |s.tape| <= |s.consumed| + 128
  {
    Counting.CountZero(s.pc, (p: Pc) => p.Inside());
    Counting.CountZero(s.pc, (p: Pc) => p.PShow?);
    if q: nat :| q < |s.pc| && s.pc[q].Inside() {
      assert Phase(s, s.pc[q]);
      ShowingUpdate(s.pc, q, PStop);
      var others := s.pc[q := PStop];
      forall r | 0 <= r < |others| ensures !others[r].PShow? {
        if s.pc[r].PShow? { Alone(s, q, r); }
      }
      ShowingUpdate(others, q, PStop);
    }
  }

  // ----- every number of cells is reached

  /** Nobody is inside. */
  ghost predicate AtRest(s: State) {
    forall q | 0 <= q < |s.pc| :: s.pc[q].PStart? || s.pc[q].CStart?
  }

  /** Steps to the end of the loop body, and the letters process p still prints on the way. */
  function ToGo(p: Pc): nat {
    match p
    case PLoad => 8
    case PStore(_) => 7
    case PShow => 6
    case PLoadPtr => 5
    case PStorePtr(_) => 4
    case PLoadAlfa => 3
    case PStoreAlfa(_) => 2
    case CShow => 4
    case CLoad => 3
    case CStore(_) => 2
    case _ => 1
  }

  function Owed(p: Pc): nat { if p.PLoad? || p.PStore? || p.PShow? then 1 else 0 }

  function Due(p: Pc): nat { if p.CShow? then 1 else 0 }

  lemma InsideStep(s: State, p: nat)
    requires NonNegative(s.sems) && p < |s.pc| && s.pc[p].Inside()
    ensures var t := Next(s, p);
            && t.pc == s.pc[p := t.pc[p]] && t.pc[p].IsConsumer() == s.pc[p].IsConsumer()
            && (t.pc[p].Inside() ==> ToGo(t.pc[p]) < ToGo(s.pc[p]))
            && |t.produced| + Owed(t.pc[p]) == |s.produced| + Owed(s.pc[p])
            && |t.consumed| + Due(t.pc[p]) == |s.consumed| + Due(s.pc[p])
  {
    Leaving(s.sems);
  }

  /** The process inside completes its loop body when it is left alone. */
  lemma {:induction false} Completes(s: State, p: nat) returns (schedule: seq<nat>)
    requires Inv(s) && p < |s.pc| && s.pc[p].Inside()
    ensures var t := Run(s, schedule);
            && Inv(t) && t.pc == s.pc[p := if s.pc[p].IsConsumer() then CStart else PStart]
            && |t.produced| == |s.produced| + Owed(s.pc[p]) && |t.consumed| == |s.consumed| + Due(s.pc[p])
    decreases ToGo(s.pc[p])
  {
    var t := Next(s, p);
    InsideStep(s, p);
    InvKept(s, p);
    schedule := [p];
    if t.pc[p].Inside() {
      var rest := Completes(t, p);
      schedule := [p] + rest;
      RunCons(s, p, rest);
    } else {
      RunCons(s, p, []);
    }
  }

  /** One producer takes a free cell, or one consumer takes a letter. */
  lemma Cycle(s: State, p: nat) returns (schedule: seq<nat>)
    requires Inv(s) && AtRest(s) && p < |s.pc| && s.sems[if s.pc[p].IsConsumer() then SF else SE] > 0
    ensures var t := Run(s, schedule);
            && Inv(t) && t.pc == s.pc
            && |t.produced| == |s.produced| + (if s.pc[p].IsConsumer() then 0 else 1)
            && |t.consumed| == |s.consumed| + (if s.pc[p].IsConsumer() then 1 else 0)
  {
    Counting.CountZero(s.pc, (p: Pc) => p.Inside());
    Entering(s.sems);
    InvKept(s, p);
    var t := Next(s, p);
    assert t.pc == s.pc[p := if s.pc[p].IsConsumer() then CShow else PLoad];
    var rest := Completes(t, p);
    schedule := [p] + rest;
    RunCons(s, p, rest);
    assert Run(s, schedule).pc == s.pc;
  }

  /** At rest the semaphores say how many letters are in the buffer. */
  lemma RestBooks(s: State)
    requires Inv(s) && AtRest(s)
    ensures s.sems[SF] == |s.produced| - |s.consumed| && s.sems[SE] == SIZE_BUF - s.sems[SF]
  {
    Counting.CountZero(s.pc, (p: Pc) => p.Inside());
  }

  /** With a consumer any number of letters can be produced, without one as many as there are free cells. */
  lemma {:induction false} Produces(s: State, p: nat, c: nat, count: nat) returns (schedule: seq<nat>)
    requires Inv(s) && AtRest(s) && p < |s.pc| && s.pc[p].PStart?
    requires (c < |s.pc| && s.pc[c].CStart?) || count <= |s.consumed| + SIZE_BUF
    ensures Inv(Run(s, schedule)) && |Run(s, schedule).produced| >= count
    decreases if count > |s.produced| then count - |s.produced| else 0, s.sems[SF]
  {
    RestBooks(s);
    schedule := [];
    if |s.produced| < count {
      var first := Cycle(s, if s.sems[SE] > 0 then p else c);
      var t := Run(s, first);
      RestBooks(t);
      var rest := Produces(t, p, c, count);
      schedule := first + rest;
      RunConcat(s, first, rest);
    }
  }

  /**
   * When is a cell past the first `room` cells written?  As soon as there is a producer, if `room` is
   * less than the initial value of SE or if there are consumers to give cells back.
   */
  lemma SegmentOverrun(producers: nat, consumers: nat, blank: int, room: nat)
    ensures (exists schedule :: |After(producers, consumers, blank, schedule).tape| > room)
            <==> producers > 0 && (consumers > 0 || room < 128)
  {
    var s := Initial(Forked(producers, consumers), blank);
    if producers > 0 && (consumers > 0 || room < SIZE_BUF) {
      AlwaysInv(producers, consumers, blank, []);
      var schedule := Produces(s, 0, producers, room + 1);
      AlwaysCells(producers, consumers, blank, schedule);
      assert |After(producers, consumers, blank, schedule).tape| > room;
    } else {
      forall schedule ensures |After(producers, consumers, blank, schedule).tape| <= room {
        var t := After(producers, consumers, blank, schedule);
        AlwaysCells(producers, consumers, blank, schedule);
        OneKind(s, schedule);
        if producers == 0 {
          forall p | 0 <= p < |t.pc| ensures !t.pc[p].PShow? { RolesKept(s, schedule, p); }
          Counting.CountZero(t.pc, (p: Pc) => p.PShow?);
        } else {
          CellsBound(t);
        }
      }
    }
  }

  /**
   * Where addr3 lies in the segment: behind one pointer, as many pointers as a pointer has bytes
   * (the pointer arithmetic of line 153), and the letter.
   */
  function BufferOffset(pointer: nat): nat { pointer + pointer * pointer + 1 }

  /** The segment has 128 bytes in all, so some run writes behind its end exactly if there is a producer. */
  lemma SegmentTooSmall(producers: nat, consumers: nat, blank: int, pointer: nat)
    requires BufferOffset(pointer) <= 128
    ensures (exists schedule ::
               BufferOffset(pointer) + |After(producers, consumers, blank, schedule).tape| > 128)
            <==> producers > 0
  {
    var room := SIZE_BUF - BufferOffset(pointer);
    SegmentOverrun(producers, consumers, blank, room);
    assert forall schedule :: |After(producers, consumers, blank, schedule).tape| > room
             <==> BufferOffset(pointer) + |After(producers, consumers, blank, schedule).tape| > SIZE_BUF;
  }
}
