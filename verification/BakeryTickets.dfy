/**
 * Exactly which ticket get_number hands out when calls are dispatched one at a time, whatever the
 * workers do meanwhile: one more than a ticket that an earlier client was told, and between the
 * largest ticket held when the call began and the largest one still held when it is stored.
 */
module BakeryTickets {
  import opened BakeryLock
  import opened BakeryServer

  // ----- every ticket follows one that was handed out before

  /** The value t is 0 or the ticket reported to a client with an id below i. */
  ghost predicate Told(ticket: seq<int>, i: nat, t: int) {
    t == 0 || exists k :: 0 <= k < i && k < |ticket| && ticket[k] == t
  }

  /** What the ticket of process i is, or is going to be, one more than. */
  function Base(s: State, i: nat): int
    requires s.Shaped() && i < |s.pc|
  {
    match s.pc[i]
    case Unused => 0
    case Announce => 0
    case Test(j, max) => max
    case Reread(j, max) => max
    case Assign(max) => max
    case Report => s.number[i] - 1
    case _ => s.ticket[i] - 1
  }

  ghost predicate Chain(s: State)
    requires s.Shaped()
  {
    forall i | 0 <= i < |s.pc| :: Told(s.ticket, i, Base(s, i))
  }

  /** What the dispatcher loads from number[] is 0 or a ticket its owner has been told. */
  lemma LoadTold(s: State, g: nat, j: nat)
    requires g < |s.pc| && Tickets(s, Getting(g)) && s.pc[g].Reread? && j < |s.pc|
    ensures Told(s.ticket, g, s.number[j])
  {
    assert s.pc[g].InGetNumber();
    assert Local(s, j);
    if s.number[j] > 0 { assert j < g && s.ticket[j] == s.number[j]; }
  }

  lemma BaseDispatched(s: State, g: nat)
    requires g < |s.pc| && Tickets(s, Getting(g)) && Chain(s)
    ensures Told(s.ticket, g, Base(Next(s, g), g))
  {
    assert s.pc[g].InGetNumber() && Told(s.ticket, g, Base(s, g));
    if s.pc[g].Reread? { LoadTold(s, g, s.pc[g].j); }
  }

  lemma ChainDispatched(s: State, g: nat)
    requires g < |s.pc| && Tickets(s, Getting(g)) && Chain(s)
    ensures Chain(Next(s, g))
  {
    var t := Next(s, g);
    BaseDispatched(s, g);
    forall i | 0 <= i < |t.pc| ensures Told(t.ticket, i, Base(t, i)) {
      assert Local(s, i) && Told(s.ticket, i, Base(s, i));
      if i <= g { ToldElsewhere(s.ticket, t.ticket, g, i, Base(t, i)); }
    }
  }

  lemma ToldElsewhere(a: seq<int>, b: seq<int>, g: nat, i: nat, t: int)
    requires i <= g < |a| == |b| && Told(a, i, t)
    requires forall k | 0 <= k < |a| && k != g :: b[k] == a[k]
    ensures Told(b, i, t)
  {
    if t != 0 {
      var k :| 0 <= k < i && k < |a| && a[k] == t;
      assert b[k] == t;
    }
  }

  lemma ChainWorked(s: State, i: nat)
    requires s.Shaped() && Chain(s) && i < |s.pc| && !s.pc[i].InGetNumber()
    ensures Chain(Next(s, i))
  {
    var t := Next(s, i);
    forall k | 0 <= k < |t.pc| ensures Told(t.ticket, k, Base(t, k)) {
      assert Told(s.ticket, k, Base(s, k));
    }
  }

  lemma ChainReact(v: Server, e: Event)
    requires Valid(v) && Chain(v.lock)
    ensures Chain(React(v, e).lock)
  {
    match e
    case Dispatch => if v.disp.Getting? { ChainDispatched(v.lock, v.disp.i); }
    case Worker(q) =>
      if q < |v.queued| {
        QueuedServed(v, q);
        ChainWorked(v.lock, v.queued[q]);
      }
    case _ =>
      var s, t := v.lock, React(v, e).lock;
      forall k | 0 <= k < |t.pc| ensures Told(t.ticket, k, Base(t, k)) { assert Told(s.ticket, k, Base(s, k)); }
  }

  lemma {:induction false} ChainRun(v: Server, events: seq<Event>)
    requires Valid(v) && Chain(v.lock)
    ensures Chain(Run(v, events).lock)
  {
    if events != [] {
      ChainRun(v, events[..|events| - 1]);
      ValidRun(v, events[..|events| - 1]);
      ChainReact(Run(v, events[..|events| - 1]), events[|events| - 1]);
    }
  }

  lemma ChainAlways(n: nat, events: seq<Event>)
    ensures Chain(Run(Start(n), events).lock)
  {
    ValidStart(n);
    ChainRun(Start(n), events);
  }

  // ----- the tickets held when a call begins bound the ticket it gets

  /** The largest ticket, 0 if there is none. */
  function Highest(number: seq<int>): (h: int)
    ensures h >= 0
    ensures forall k | 0 <= k < |number| :: number[k] <= h
    ensures h == 0 || h in number
  {
    if number == [] then 0
    else
      var h, last := Highest(number[..|number| - 1]), number[|number| - 1];
      if last > h then last else h
  }

  /** While get_number runs for g nothing it reads, and nothing it has read, exceeds b. */
  ghost predicate Reading(s: State, g: nat, b: int)
    requires s.Shaped() && g < |s.pc|
  {
    && 0 <= b
    && (s.pc[g].Test? || s.pc[g].Reread? || s.pc[g].Assign? ==> s.pc[g].max <= b)
    && (!s.pc[g].Report? && !s.pc[g].Retract? ==> forall k | 0 <= k < |s.pc| :: s.number[k] <= b)
  }

  lemma ReadingReact(v: Server, e: Event, g: nat, b: int)
    requires Valid(v) && v.disp == Getting(g) && Reading(v.lock, g, b)
    ensures React(v, e).disp == Getting(g) ==> Reading(React(v, e).lock, g, b)
  {
    assert v.lock.pc[g].InGetNumber();
    match e
    case Dispatch =>
    case Worker(q) =>
      if q < |v.queued| {
        QueuedServed(v, q);
        NextMoves(v.lock, v.queued[q]);
      }
    case _ =>
  }

  /** The dispatcher leaves the call of g once only. */
  lemma NeverAgain(v: Server, e: Event, g: nat)
    requires v.Shaped() && v.lock.num > g && v.disp != Getting(g)
    ensures React(v, e).lock.num > g && React(v, e).disp != Getting(g)
  {
    match e
    case Dispatch => if v.disp.Getting? { NextMoves(v.lock, v.disp.i); }
    case Worker(q) => if q < |v.queued| { NextMoves(v.lock, v.queued[q]); }
    case _ =>
  }

  lemma NumGrows(v: Server, e: Event)
    requires v.Shaped()
    ensures React(v, e).lock.num >= v.lock.num
  {
    match e
    case Dispatch => if v.disp.Getting? { NextMoves(v.lock, v.disp.i); }
    case Worker(q) => if q < |v.queued| { NextMoves(v.lock, v.queued[q]); }
    case _ =>
  }

  lemma {:induction false} ReadingRun(v: Server, more: seq<Event>, g: nat, b: int)
    requires Valid(v) && v.disp == Getting(g) && Reading(v.lock, g, b)
    ensures Run(v, more).lock.num > g && (Run(v, more).disp == Getting(g) ==> Reading(Run(v, more).lock, g, b))
  {
    if more != [] {
      var init, e := more[..|more| - 1], more[|more| - 1];
      ReadingRun(v, init, g, b);
      ValidRun(v, init);
      var w := Run(v, init);
      NumGrows(w, e);
      if w.disp == Getting(g) { ReadingReact(w, e, g, b); } else { NeverAgain(w, e, g); }
    }
  }

  // ----- undisturbed, the call hands out the largest ticket plus one

  /** The call of g is on its way to the ticket h + 1, the tickets having been `before` when it began. */
  ghost predicate Due(s: State, g: nat, before: seq<int>, h: int)
    requires s.Shaped() && g < |s.pc| == |before|
  {
    match s.pc[g]
    case Announce => s.number == before
    case Test(j, max) => s.number == before && max <= h
    case Reread(j, max) => s.number == before && max <= h
    case Assign(max) => s.number == before && max <= h
    case _ => s.number == before[g := h + 1]
  }

  lemma DueNext(s: State, g: nat, before: seq<int>, h: int)
    requires s.Shaped() && g < |s.pc| == |before| && s.pc[g].InGetNumber() && ScanOk(s, g) && Due(s, g, before, h)
    requires (h == 0 || h in before) && forall k | 0 <= k < |before| :: before[k] <= h
    requires h >= 0
    ensures Due(Next(s, g), g, before, h)
  {
  }

  lemma DueDispatch(v: Server, g: nat, before: seq<int>)
    requires Valid(v) && v.disp == Getting(g) && |before| == |v.lock.pc| && Due(v.lock, g, before, Highest(before))
    ensures var w := React(v, Dispatch);
            Due(w.lock, g, before, Highest(before)) && (w.disp == v.disp || (w.disp.Idle? && w.lock.pc[g].Ticketed?))
  {
    assert v.lock.pc[g].InGetNumber();
    DueNext(v.lock, g, before, Highest(before));
  }

  /** Interleaved with workers, the ticket lies between the largest one held at the end and at the start. */
  lemma StoredBetween(v: Server, more: seq<Event>, g: nat)
    requires Valid(v) && v.disp == Run(v, more).disp == Getting(g)
    requires v.lock.pc[g].Announce? && Run(v, more).lock.pc[g].Assign?
    ensures var w := Run(v, more);
            Highest(w.lock.number) < React(w, Dispatch).lock.number[g] <= Highest(v.lock.number) + 1
  {
    ReadingRun(v, more, g, Highest(v.lock.number));
    ValidRun(v, more);
    assert ScanOk(Run(v, more).lock, g);
  }
}
