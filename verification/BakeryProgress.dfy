/**
 * When can `pthread_join` in bakery_res return?  The dispatcher is blocked, so no client can
 * call wait_queue any more: exactly if every smaller id that holds a ticket already has a worker.
 */
module BakeryProgress {
  import opened BakeryLock
  import opened BakeryServer
  import opened BakeryTermination
  import opened BakeryTickets
  import opened BakeryTheorems

  /** The client whose worker the blocked dispatcher is waiting for. */
  function Awaited(v: Server): nat
    requires v.Shaped() && |v.replies| < |v.queued|
  {
    v.queued[|v.replies|]
  }

  /** Every id below c that holds a ticket has a worker thread. */
  ghost predicate AllServed(v: Server, c: nat)
    requires v.Shaped() && c < |v.lock.pc|
  {
    forall i | 0 <= i < c && v.lock.number[i] > 0 :: i in v.queued
  }

  lemma JoiningAwaits(v: Server)
    requires Valid(v) && v.disp.Joining?
    ensures |v.replies| < |v.queued| <= |v.lock.pc|
  {
    WithinSlots(v);
  }

  // ----- the bad case

  /** A ticket without a worker below the awaited id blocks the dispatcher, whatever happens. */
  lemma {:induction false} StuckForever(v: Server, events: seq<Event>)
    requires Valid(v) && v.disp.Joining?
    requires |v.replies| < |v.queued| && !AllServed(v, Awaited(v))
    ensures var w := Run(v, events);
            && w.disp.Joining? && w.replies == v.replies && w.queued == v.queued
            && !AllServed(w, Awaited(v))
  {
    if events != [] {
      var init := events[..|events| - 1];
      StuckForever(v, init);
      ValidRun(v, init);
      StuckStep(Run(v, init), events[|events| - 1]);
    }
  }

  lemma StuckStep(v: Server, e: Event)
    requires Valid(v) && v.disp.Joining?
    requires |v.replies| < |v.queued| && !AllServed(v, Awaited(v))
    ensures var w := React(v, e);
            && w.disp.Joining? && w.replies == v.replies && w.queued == v.queued
            && !AllServed(w, Awaited(v))
  {
  }

  // ----- the good case

  /** The dispatcher is blocked on the worker of client c, and every smaller ticket has a worker. */
  ghost predicate Hopeful(v: Server, c: nat) {
    && v.Shaped() && v.disp.Joining? && |v.replies| < |v.queued| <= |v.results|
    && c == Awaited(v) && AllServed(v, c)
  }

  /** What an event does to the lock while the dispatcher is blocked: at most a step of a worker. */
  function LockAction(queued: seq<nat>, n: nat, e: Event): Action {
    if e.Worker? && e.q < |queued| then Step(queued[e.q]) else Step(n)
  }

  function LockActions(queued: seq<nat>, n: nat, events: seq<Event>): (acts: seq<Action>)
    ensures |acts| == |events|
    ensures forall k | 0 <= k < |events| :: acts[k] == LockAction(queued, n, events[k])
  {
    seq(|events|, k requires 0 <= k < |events| => LockAction(queued, n, events[k]))
  }

  lemma ExecLast(s: State, queued: seq<nat>, n: nat, events: seq<Event>)
    requires s.Shaped() && events != []
    ensures Exec(s, LockActions(queued, n, events))
            == Apply(Exec(s, LockActions(queued, n, events[..|events| - 1])),
                     LockAction(queued, n, events[|events| - 1]))
  {
    var acts := LockActions(queued, n, events);
    assert acts[..|acts| - 1] == LockActions(queued, n, events[..|events| - 1]);
  }

  /** An event in the good case: the reply, or an action of the lock alone. */
  lemma HopefulReact(v: Server, c: nat, e: Event)
    requires Hopeful(v, c)
    ensures var w := React(v, e);
            if e.Join? && v.lock.pc[c].Done? then w.replies == v.replies + [v.results[|v.replies|]]
            else w == v.(lock := w.lock, results := w.results)
                 && w.lock == Apply(v.lock, LockAction(v.queued, |v.lock.pc|, e))
  {
  }

  /** Worker steps hand out no ticket, so the good case stays good. */
  lemma HopefulKept(v: Server, w: Server, c: nat, e: Event)
    requires Hopeful(v, c) && w.Shaped() && |w.lock.pc| == |v.lock.pc| && |w.results| == |v.results|
    requires w == v.(lock := w.lock, results := w.results)
    requires w.lock == Apply(v.lock, LockAction(v.queued, |v.lock.pc|, e))
    requires forall i | i in v.queued :: v.lock.pc[i].IsWorker() || v.lock.pc[i].Done?
    ensures Hopeful(w, c)
  {
    if e.Worker? && e.q < |v.queued| {
      NextMoves(v.lock, v.queued[e.q]);
      assert v.queued[e.q] in v.queued;
    }
  }

  lemma HopefulStep(v: Server, c: nat, e: Event)
    requires Valid(v) && Hopeful(v, c)
    ensures var w := React(v, e);
            if e.Join? && v.lock.pc[c].Done? then w.replies == v.replies + [Letter(c)]
            else Hopeful(w, c) && w.replies == v.replies && w.queued == v.queued
                 && w.lock == Apply(v.lock, LockAction(v.queued, |v.lock.pc|, e))
  {
    HopefulReact(v, c, e);
    if !(e.Join? && v.lock.pc[c].Done?) { HopefulKept(v, React(v, e), c, e); }
  }

  lemma RepliesGrow(v: Server, e: Event)
    requires v.Shaped()
    ensures v.replies <= React(v, e).replies
  {
  }

  /**
   * No schedule can spoil the good case: until the reply is given it remains the good case, and
   * the lock makes exactly the steps of its workers.
   */
  lemma {:induction false} HopefulAlways(v: Server, c: nat, events: seq<Event>)
    requires Valid(v) && Hopeful(v, c)
    ensures var w := Run(v, events);
            || v.replies + [Letter(c)] <= w.replies
            || (Hopeful(w, c) && w.replies == v.replies && w.queued == v.queued
                && w.lock == Exec(v.lock, LockActions(v.queued, |v.lock.pc|, events)))
  {
    if events != [] {
      var init, e := events[..|events| - 1], events[|events| - 1];
      var u := Run(v, init);
      HopefulAlways(v, c, init);
      if v.replies + [Letter(c)] <= u.replies {
        RepliesGrow(u, e);
      } else {
        ValidRun(v, init);
        HopefulStep(u, c, e);
        ExecLast(v.lock, v.queued, |v.lock.pc|, events);
      }
    }
  }

  /** Every worker thread takes a step, and pthread_join gets a chance to return. */
  ghost predicate FairRound(queued: seq<nat>, events: seq<Event>) {
    Join in events && forall q | 0 <= q < |queued| :: Worker(q) in events
  }

  lemma FairLockRound(v: Server, c: nat, events: seq<Event>)
    requires Valid(v) && Hopeful(v, c) && FairRound(v.queued, events)
    ensures Round(v.lock, c, LockActions(v.queued, |v.lock.pc|, events))
  {
    var s, acts := v.lock, LockActions(v.queued, |v.lock.pc|, events);
    forall k | 0 <= k < |s.pc| && s.number[k] > 0 && (k == c || Earlier(s.number, k, c)) ensures Step(k) in acts {
      assert Local(s, c) && Local(s, k);
      assert k in v.queued;
      var q :| 0 <= q < |v.queued| && v.queued[q] == k;
      var r :| 0 <= r < |events| && events[r] == Worker(q);
      assert acts[r] == Step(k);
    }
  }

  /** The lock of a server in the good case drains up to the awaited client. */
  lemma HopefulDrains(v: Server, c: nat)
    requires Valid(v) && Hopeful(v, c)
    ensures Draining(v.lock, c)
  {
    var s := v.lock;
    forall k | 0 <= k < |s.pc| && s.number[k] > 0 && (k == c || Earlier(s.number, k, c)) ensures s.pc[k].IsWorker() {
      assert Local(s, c) && Local(s, k);
      assert k in v.queued;
    }
  }

  lemma {:induction false} FlattenActions(v: Server, rounds: seq<seq<Event>>) returns (lockRounds: seq<seq<Action>>)
    requires v.Shaped()
    ensures |lockRounds| == |rounds|
    ensures forall k | 0 <= k < |rounds| :: lockRounds[k] == LockActions(v.queued, |v.lock.pc|, rounds[k])
    ensures Flatten(lockRounds) == LockActions(v.queued, |v.lock.pc|, Flatten(rounds))
  {
    lockRounds := [];
    if rounds != [] {
      var rest := FlattenActions(v, rounds[1..]);
      lockRounds := [LockActions(v.queued, |v.lock.pc|, rounds[0])] + rest;
      assert lockRounds[1..] == rest;
    }
  }

  /** In the good case the awaited worker ends under every schedule with that many fair rounds. */
  lemma FairEnd(v: Server, c: nat, rounds: seq<seq<Event>>)
    requires Valid(v) && Hopeful(v, c) && |rounds| >= Work(v.lock, c)
    requires forall r | r in rounds :: FairRound(v.queued, r)
    ensures var w := Run(v, Flatten(rounds));
            || v.replies + [Letter(c)] <= w.replies
            || (Hopeful(w, c) && w.replies == v.replies && w.queued == v.queued && w.lock.pc[c].Done?)
  {
    HopefulAlways(v, c, Flatten(rounds));
    HopefulDrains(v, c);
    var lockRounds := FlattenActions(v, rounds);
    forall r | r in lockRounds ensures Round(v.lock, c, r) {
      var k :| 0 <= k < |lockRounds| && lockRounds[k] == r;
      FairLockRound(v, c, rounds[k]);
    }
    FairTermination(v.lock, c, lockRounds);
    ValidRun(v, Flatten(rounds));
    EndedIsDone(Run(v, Flatten(rounds)), c);
  }

  lemma EndedIsDone(v: Server, c: nat)
    requires Valid(v)
    ensures Hopeful(v, c) && v.lock.number[c] == 0 ==> v.lock.pc[c].Done?
  {
    if Hopeful(v, c) {
      assert Local(v.lock, c) && c in v.queued;
    }
  }

  /** The awaited worker stays ended. */
  lemma EndedStays(v: Server, c: nat, e: Event)
    requires Valid(v) && Hopeful(v, c) && v.lock.pc[c].Done?
    ensures var w := React(v, e);
            if e.Join? then w.replies == v.replies + [Letter(c)]
            else Hopeful(w, c) && w.replies == v.replies && w.lock.pc[c].Done?
  {
    HopefulStep(v, c, e);
    if e.Worker? && e.q < |v.queued| { NextMoves(v.lock, v.queued[e.q]); }
  }

  /** Once the awaited worker has ended, the next chance of pthread_join gives the reply. */
  lemma {:induction false} JoinAnswers(v: Server, c: nat, events: seq<Event>)
    requires Valid(v) && Hopeful(v, c) && v.lock.pc[c].Done?
    ensures var w := Run(v, events);
            || v.replies + [Letter(c)] <= w.replies
            || (Join !in events && Hopeful(w, c) && w.replies == v.replies && w.lock.pc[c].Done?)
  {
    if events != [] {
      var init, e := events[..|events| - 1], events[|events| - 1];
      var u := Run(v, init);
      JoinAnswers(v, c, init);
      if v.replies + [Letter(c)] <= u.replies {
        RepliesGrow(u, e);
      } else {
        ValidRun(v, init);
        EndedStays(u, c, e);
      }
    }
  }

  lemma {:induction false} FlattenLast<T>(rounds: seq<seq<T>>)
    requires rounds != []
    ensures Flatten(rounds) == Flatten(rounds[..|rounds| - 1]) + rounds[|rounds| - 1]
  {
    if |rounds| > 1 {
      FlattenLast(rounds[1..]);
      assert rounds[1..][..|rounds| - 2] == rounds[..|rounds| - 1][1..];
    }
  }

  /** The reply is given under every schedule with one fair round more than the work of the lock. */
  lemma FairReply(v: Server, c: nat, rounds: seq<seq<Event>>)
    requires Valid(v) && Hopeful(v, c) && |rounds| > Work(v.lock, c)
    requires forall r | r in rounds :: FairRound(v.queued, r)
    ensures v.replies + [Letter(c)] <= Run(v, Flatten(rounds)).replies
  {
    var init, last := rounds[..|rounds| - 1], rounds[|rounds| - 1];
    FlattenLast(rounds);
    FairEnd(v, c, init);
    RunConcat(v, Flatten(init), last);
    var w := Run(v, Flatten(init));
    ValidRun(v, Flatten(init));
    if v.replies + [Letter(c)] <= w.replies {
      RunGrows(w, last);
    } else {
      assert last in rounds;
      JoinAnswers(w, c, last);
    }
  }

  lemma {:induction false} RunGrows(v: Server, events: seq<Event>)
    requires v.Shaped()
    ensures v.replies <= Run(v, events).replies
  {
    if events != [] {
      RunGrows(v, events[..|events| - 1]);
      RepliesGrow(Run(v, events[..|events| - 1]), events[|events| - 1]);
    }
  }

  /** Enough fair rounds. */
  ghost predicate FairSchedule(v: Server, c: nat, rounds: seq<seq<Event>>)
    requires v.Shaped() && c < |v.lock.pc|
  {
    |rounds| > Work(v.lock, c) && forall r | r in rounds :: FairRound(v.queued, r)
  }

  lemma FairScheduleExists(v: Server, c: nat) returns (rounds: seq<seq<Event>>)
    requires v.Shaped() && c < |v.lock.pc|
    ensures FairSchedule(v, c, rounds)
  {
    var workers := seq(|v.queued|, q requires 0 <= q < |v.queued| => Worker(q));
    var round := workers + [Join];
    forall q | 0 <= q < |v.queued| ensures Worker(q) in round { assert round[q] == Worker(q); }
    assert round[|workers|] == Join;
    rounds := seq(Work(v.lock, c) + 1, _ => round);
  }

  /**
   * The join returns, with the letter of the awaited client, under every fair schedule if every
   * smaller id with a nonzero ticket already has a worker; otherwise it returns under none, fair or
   * not, whatever any client calls.
   */
  lemma JoinReturnsIff(n: nat, events: seq<Event>)
    requires After(n, events).disp.Joining?
    ensures var v := After(n, events);
            && |v.replies| < |v.queued| && Awaited(v) < n
            && (AllServed(v, Awaited(v)) ==>
                  forall rounds | FairSchedule(v, Awaited(v), rounds) ::
                    v.replies + [Letter(Awaited(v))] <= Run(v, Flatten(rounds)).replies)
            && (!AllServed(v, Awaited(v)) ==> forall more :: Run(v, more).replies == v.replies)
            && ((exists more :: Run(v, more).replies != v.replies) <==> AllServed(v, Awaited(v)))
  {
    AlwaysValid(n, events);
    var v := After(n, events);
    JoiningAwaits(v);
    var c := Awaited(v);
    if AllServed(v, c) {
      forall rounds | FairSchedule(v, c, rounds) ensures v.replies + [Letter(c)] <= Run(v, Flatten(rounds)).replies {
        FairReply(v, c, rounds);
      }
      var rounds := FairScheduleExists(v, c);
      assert Run(v, Flatten(rounds)).replies != v.replies;
    } else {
      forall more ensures Run(v, more).replies == v.replies { StuckForever(v, more); }
    }
  }

  /** What is left of the get_number body. */
  function Pending(s: State, i: nat): nat
    requires s.Shaped() && i < |s.pc|
  {
    var n := |s.pc|;
    match s.pc[i]
    case Announce => 2 * n + 5
    case Test(j, max) => 2 * (n - j) + 4
    case Reread(j, max) => 2 * (n - j) + 3
    case Assign(max) => 3
    case Report => 2
    case Retract => 1
    case _ => 0
  }

  lemma GetNumberAdvances(s: State, g: nat)
    requires g < |s.pc| && Tickets(s, Getting(g)) && s.pc[g].InGetNumber()
    ensures var t := Next(s, g);
            && t.pc == s.pc[g := t.pc[g]] && t.num == s.num && Pending(t, g) < Pending(s, g)
            && (t.pc[g].Ticketed? ==> t.number[g] > 0)
  {
    NextMoves(s, g);
    assert Local(s, g);
  }

  lemma DispatchOnce(n: nat, events: seq<Event>, g: nat)
    requires After(n, events).disp == Getting(g)
    ensures var v, w := After(n, events), After(n, events + [Dispatch]);
            && w == v.(lock := w.lock, disp := w.disp)
            && w.lock.pc == v.lock.pc[g := w.lock.pc[g]] && w.lock.num == v.lock.num
            && (if w.disp.Idle? then w.lock.pc[g].Ticketed? && w.lock.number[g] > 0
                else w.disp == Getting(g) && Pending(w.lock, g) < Pending(v.lock, g))
  {
    var v := After(n, events);
    AlwaysValid(n, events);
    assert v.lock.pc[g].InGetNumber();
    GetNumberAdvances(v.lock, g);
    RunConcat(Start(n), events, [Dispatch]);
    RunCons(v, Dispatch, []);
  }

  lemma DueOnce(n: nat, events: seq<Event>, g: nat, before: seq<int>)
    requires After(n, events).disp == Getting(g) && |before| == n
    requires Due(After(n, events).lock, g, before, Highest(before))
    ensures Due(React(After(n, events), Dispatch).lock, g, before, Highest(before))
  {
    AlwaysValid(n, events);
    DueDispatch(After(n, events), g, before);
  }

  lemma DispatchAfter(n: nat, events: seq<Event>)
    ensures After(n, events + [Dispatch]) == React(After(n, events), Dispatch)
  {
    RunConcat(Start(n), events, [Dispatch]);
    RunCons(After(n, events), Dispatch, []);
  }

  lemma {:induction false} GetNumberEnds(n: nat, events: seq<Event>, g: nat, before: seq<int>)
    returns (steps: seq<Event>)
    requires After(n, events).disp == Getting(g) && |before| == n
    ensures forall k | 0 <= k < |steps| :: steps[k] == Dispatch
    ensures var v, w := After(n, events), After(n, events + steps);
            && w == v.(lock := w.lock, disp := Idle)
            && w.lock.pc == v.lock.pc[g := Ticketed] && w.lock.num == v.lock.num && w.lock.number[g] > 0
            && (Due(v.lock, g, before, Highest(before)) ==> w.lock.number == before[g := Highest(before) + 1])
    decreases Pending(After(n, events).lock, g)
  {
    DispatchOnce(n, events, g);
    DispatchAfter(n, events);
    if Due(After(n, events).lock, g, before, Highest(before)) { DueOnce(n, events, g, before); }
    steps := [Dispatch];
    if After(n, events + [Dispatch]).disp.Getting? {
      var rest := GetNumberEnds(n, events + [Dispatch], g, before);
      steps := [Dispatch] + rest;
      assert events + steps == (events + [Dispatch]) + rest;
    }
  }

  lemma TicketKept(n: nat, events: seq<Event>, g: nat)
    requires g < n && After(n, events).lock.pc[g].Ticketed?
    ensures After(n, events).lock.ticket[g] == After(n, events).lock.number[g] > 0
  {
    AlwaysValid(n, events);
    assert Local(After(n, events).lock, g);
  }

  /**
   * get_number is wait-free: the dispatcher alone completes it, and nothing else has changed.  Run
   * from its beginning it hands out the largest ticket held plus one.
   */
  lemma GetNumberCompletes(n: nat, events: seq<Event>, g: nat) returns (steps: seq<Event>)
    requires After(n, events).disp == Getting(g)
    ensures forall k | 0 <= k < |steps| :: steps[k] == Dispatch
    ensures var v, w := After(n, events), After(n, events + steps);
            && w == v.(lock := w.lock, disp := Idle)
            && w.lock.pc == v.lock.pc[g := Ticketed] && w.lock.num == v.lock.num
            && w.lock.ticket[g] == w.lock.number[g] > 0
            && (v.lock.pc[g].Announce? ==> w.lock.number == v.lock.number[g := Highest(v.lock.number) + 1])
  {
    steps := GetNumberEnds(n, events, g, After(n, events).lock.number);
    TicketKept(n, events + steps, g);
  }

  lemma ArrivesOnce(n: nat, events: seq<Event>)
    requires After(n, events).disp.Idle? && After(n, events).lock.num < n
    ensures var v, w := After(n, events), After(n, events + [GetNumber]);
            && w == v.(lock := w.lock, disp := Getting(v.lock.num))
            && w.lock.pc == v.lock.pc[v.lock.num := Announce] && w.lock.num == v.lock.num + 1
            && w.lock.number == v.lock.number
  {
    RunConcat(Start(n), events, [GetNumber]);
    RunCons(After(n, events), GetNumber, []);
  }

  /** A complete get_number call by the next client: it gets the largest ticket held plus one. */
  lemma TakeTicket(n: nat, events: seq<Event>) returns (longer: seq<Event>)
    requires After(n, events).disp.Idle? && After(n, events).lock.num < n
    ensures events <= longer
    ensures var v, w := After(n, events), After(n, longer);
            && w == v.(lock := w.lock)
            && w.lock.pc == v.lock.pc[v.lock.num := Ticketed] && w.lock.num == v.lock.num + 1
            && w.lock.number == v.lock.number[v.lock.num := Highest(v.lock.number) + 1]
  {
    ArrivesOnce(n, events);
    var steps := GetNumberCompletes(n, events + [GetNumber], After(n, events).lock.num);
    longer := (events + [GetNumber]) + steps;
  }

  /** Client 1 calls wait_queue and bakery_res while client 0 has only its ticket. */
  lemma Overtakes(v: Server) returns (calls: seq<Event>)
    requires v.Shaped() && v.disp.Idle? && v.queued == v.asked == [] && v.replies == [] && |v.lock.pc| >= 2
    requires v.lock.pc[1].Ticketed?
    ensures var w := Run(v, calls);
            w.disp.Joining? && w.queued == [1] && w.replies == [] && w.lock.number == v.lock.number
  {
    calls := [WaitQueue(1)] + [BakeryRes(1)];
    RunCons(v, WaitQueue(1), [BakeryRes(1)]);
    RunCons(React(v, WaitQueue(1)), BakeryRes(1), []);
  }

  /** With two or more slots the server can block itself: client 1 overtakes client 0. */
  lemma DeadlockReachable(n: nat) returns (events: seq<Event>)
    requires n >= 2
    ensures forall more :: Run(After(n, events), more).disp.Joining? && Run(After(n, events), more).replies == []
  {
    events := TakeTicket(n, []);
    events := TakeTicket(n, events);
    var v := After(n, events);
    AlwaysValid(n, events);
    assert Local(v.lock, 0);
    var calls := Overtakes(v);
    RunConcat(Start(n), events, calls);
    events := events + calls;
    var w := After(n, events);
    AlwaysValid(n, events);
    forall more ensures Run(w, more).disp.Joining? && Run(w, more).replies == [] { StuckForever(w, more); }
  }
}
