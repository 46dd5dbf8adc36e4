/**
 * The RPC server around the bakery lock.  One dispatcher thread runs the three handlers of
 * bakery_server.c one call at a time; each `wait_queue` call creates a worker thread.  Clients
 * call get_number, wait_queue and bakery_res once each, in this order, echoing their id.
 */
module BakeryServer {
  import opened BakeryLock
  import opened Distinctness

  /** What the dispatcher thread is doing between two of its steps. */
  datatype Dispatcher = Idle | Getting(i: nat) | Joining

  datatype Server = Server(
    lock: State,
    disp: Dispatcher,
    queued: seq<nat>,  // threads_results[k].id; its length is idx_thread_create
    results: seq<int>, // threads_results[k].res
    asked: seq<nat>,   // the clients in the order of their bakery_res calls
    replies: seq<int>) // what bakery_res has answered; its length is idx_thread_join
  {
    predicate Shaped() {
      && lock.Shaped()
      && |results| == |lock.pc|
      && (disp.Getting? ==> disp.i < |lock.pc|)
      && (forall q | 0 <= q < |queued| :: queued[q] < |lock.pc|)
    }
  }

  datatype Event =
    | GetNumber          // a get_number call arrives
    | Dispatch           // one load or store of the running get_number body
    | WaitQueue(id: nat) // the wait_queue call of client id
    | BakeryRes(id: nat) // the bakery_res call of client id arrives
    | Join               // pthread_join returns
    | Worker(q: nat)     // one load or store of the q-th worker thread

  function Start(n: nat): Server {
    Server(Initial(n), Idle, [], seq(n, _ => 0), [], [])
  }

  /** One event; an event that cannot happen in v leaves v as it is. */
  function React(v: Server, e: Event): (w: Server)
    requires v.Shaped()
    ensures w.Shaped() && |w.lock.pc| == |v.lock.pc|
  {
    var s := v.lock;
    match e
    case GetNumber =>
      if v.disp.Idle? && s.num < |s.pc| then v.(lock := Apply(s, Allocate), disp := Getting(s.num)) else v
    case Dispatch =>
      if v.disp.Getting? then
        var t := Next(s, v.disp.i);
        v.(lock := t, disp := if t.pc[v.disp.i].Ticketed? then Idle else v.disp)
      else v
    case WaitQueue(id) =>
      if v.disp.Idle? && id < |s.pc| && s.pc[id].Ticketed? then
        v.(lock := Apply(s, Spawn(id)), queued := v.queued + [id])
      else v
    case BakeryRes(id) =>
      if v.disp.Idle? && id in v.queued && id !in v.asked then
        v.(disp := Joining, asked := v.asked + [id])
      else v
    case Join =>
      var c := |v.replies|;
      if v.disp.Joining? && c < |v.queued| && c < |v.results| && s.pc[v.queued[c]].Done? then
        v.(disp := Idle, replies := v.replies + [v.results[c]])
      else v
    case Worker(q) =>
      if q < |v.queued| && q < |v.results| then
        var i := v.queued[q];
        v.(lock := Next(s, i), results := if s.pc[i].LoadResult? then v.results[q := s.symbol] else v.results)
      else v
  }

  function Run(v: Server, events: seq<Event>): (w: Server)
    requires v.Shaped()
    ensures w.Shaped() && |w.lock.pc| == |v.lock.pc|
  {
    if events == [] then v else React(Run(v, events[..|events| - 1]), events[|events| - 1])
  }

  lemma {:induction false} RunConcat(v: Server, a: seq<Event>, b: seq<Event>)
    requires v.Shaped()
    ensures Run(v, a + b) == Run(Run(v, a), b)
  {
    if b == [] {
      assert a + b == a;
    } else {
      RunConcat(v, a, b[..|b| - 1]);
      assert (a + b)[..|a + b| - 1] == a + b[..|b| - 1];
    }
  }

  lemma RunCons(v: Server, e: Event, rest: seq<Event>)
    requires v.Shaped()
    ensures Run(v, [e] + rest) == Run(React(v, e), rest)
    ensures Run(v, [e]) == React(v, e)
  {
    RunConcat(v, [e], rest);
    assert [e][..0] == [];
  }

  // ----- the invariant

  /** The running maximum of the only scan in progress, and the tickets it has to exceed. */
  ghost predicate ScanOk(s: State, g: nat)
    requires s.Shaped() && g < |s.pc|
  {
    match s.pc[g]
    case Test(j, max) => 0 <= max <= g && forall i | 0 <= i < j :: s.number[i] <= max
    case Reread(j, max) =>
      && 0 <= max <= g && j < g
      && forall i | 0 <= i < j :: s.number[i] <= max && (s.number[i] > 0 ==> max < s.number[j])
    case Assign(max) => 0 <= max <= g && forall i | 0 <= i < |s.pc| :: s.number[i] <= max
    case _ => true
  }

  /**
   * A worker that got past choosing[g] before g announced itself had outlived all smaller ids, so
   * up to its slot the scan of g has met nothing; a re-read that finds 0 replaces a maximum of 0.
   */
  ghost predicate Quiet(s: State, g: nat)
    requires s.Shaped() && g < |s.pc|
  {
    match s.pc[g]
    case Test(j, max) => forall w | j <= w < |s.pc| && Checked(s.pc[w], g) :: max == 0
    case Reread(j, max) =>
      && (forall w | j <= w < |s.pc| && Checked(s.pc[w], g) :: max == 0)
      && (max < s.number[j] || max == s.number[j] == 0)
    case _ => true
  }

  /** Live tickets increase with the id, and ticket i never exceeds i + 1. */
  ghost predicate Ordered(number: seq<int>) {
    && (forall i | 0 <= i < |number| :: 0 <= number[i] <= i + 1)
    && (forall i, k | 0 <= i < k < |number| && number[i] > 0 && number[k] > 0 :: number[i] < number[k])
  }

  /** Dispatch is serial: at most the newest id is inside get_number. */
  ghost predicate OneGetter(s: State, d: Dispatcher)
    requires s.Shaped()
  {
    && (forall i | 0 <= i < |s.pc| :: s.pc[i].InGetNumber() <==> d == Getting(i))
    && (d.Getting? ==> d.i + 1 == s.num)
  }

  ghost predicate Tickets(s: State, d: Dispatcher) {
    Inv(s) && OneGetter(s, d) && Ordered(s.number) && (d.Getting? ==> ScanOk(s, d.i) && Quiet(s, d.i))
  }

  /** A worker in its critical section has outlived every smaller id. */
  lemma SmallerDone(s: State, d: Dispatcher, i: nat, k: nat)
    requires Tickets(s, d) && k < i < |s.pc| && s.pc[i].InCritical()
    ensures s.number[k] == 0 && s.pc[k].Done?
  {
    assert Local(s, i) && Local(s, k) && Pair(s, i, k);
  }

  /** A load or store of the get_number body keeps the running maximum above the tickets scanned. */
  lemma ScanAdvances(s: State, g: nat)
    requires s.Shaped() && g < |s.pc| && Ordered(s.number) && ScanOk(s, g)
    requires forall i | g <= i < |s.pc| && !s.pc[g].Report? :: s.number[i] == 0
    ensures ScanOk(Next(s, g), g)
  {
    match s.pc[g]
    case Announce =>
    case Test(j, max) =>
    case Reread(j, max) =>
    case _ =>
  }

  lemma QuietAdvances(s: State, g: nat)
    requires s.Shaped() && g < |s.pc| && Quiet(s, g) && s.pc[g].InGetNumber()
    requires s.pc[g].Reread? ==>
             forall w | s.pc[g].j < w < |s.pc| && Checked(s.pc[w], g) :: s.number[s.pc[g].j] == 0
    ensures Quiet(Next(s, g), g)
  {
    NextMoves(s, g);
    assert !Checked(Next(s, g).pc[g], g);
  }

  /** A worker past choosing[g] had passed the slot j being re-read, so j holds no smaller ticket. */
  lemma RereadOfZero(s: State, g: nat, w: nat)
    requires Inv(s) && Ordered(s.number) && g < |s.pc| && s.pc[g].Reread? && s.pc[g].j < g
    requires s.pc[g].j < w < |s.pc| && Checked(s.pc[w], g)
    ensures s.number[s.pc[g].j] == 0
  {
    assert Pair(s, w, s.pc[g].j) && Local(s, w) && Local(s, s.pc[g].j);
  }

  lemma OneGetterDispatched(s: State, g: nat)
    requires g < |s.pc| && s.Shaped() && OneGetter(s, Getting(g))
    ensures OneGetter(Next(s, g), if Next(s, g).pc[g].Ticketed? then Idle else Getting(g))
  {
  }

  /** The ticket stored at line 47 is the largest, and it belongs to the largest id. */
  lemma OrderDispatched(s: State, g: nat)
    requires s.Shaped() && g < |s.pc| && Ordered(s.number) && ScanOk(s, g) && s.pc[g].InGetNumber()
    requires forall i | g <= i < |s.pc| && s.pc[g].Assign? :: s.number[i] == 0
    ensures Ordered(Next(s, g).number)
  {
  }

  /** While the scan of g runs, no id from g on holds a ticket. */
  lemma NoneAbove(s: State, g: nat, i: nat)
    requires g < |s.pc| && Tickets(s, Getting(g)) && g <= i < |s.pc| && !s.pc[g].Report? && !s.pc[g].Retract?
    ensures s.number[i] == 0
  {
    assert Local(s, i) && s.pc[g].InGetNumber();
  }

  lemma ScanDispatched(s: State, g: nat)
    requires g < |s.pc| && Tickets(s, Getting(g))
    ensures ScanOk(Next(s, g), g) && Quiet(Next(s, g), g) && Ordered(Next(s, g).number)
  {
    assert s.pc[g].InGetNumber();
    if !s.pc[g].Report? && !s.pc[g].Retract? {
      forall i | g <= i < |s.pc| ensures s.number[i] == 0 { NoneAbove(s, g, i); }
      ScanAdvances(s, g);
    }
    if s.pc[g].Reread? {
      forall w | s.pc[g].j < w < |s.pc| && Checked(s.pc[w], g) ensures s.number[s.pc[g].j] == 0 {
        RereadOfZero(s, g, w);
      }
    }
    QuietAdvances(s, g);
    OrderDispatched(s, g);
  }

  lemma TicketsDispatched(s: State, g: nat)
    requires g < |s.pc| && Tickets(s, Getting(g))
    ensures Tickets(Next(s, g), if Next(s, g).pc[g].Ticketed? then Idle else Getting(g))
  {
    InvKept(s, g);
    OneGetterDispatched(s, g);
    ScanDispatched(s, g);
  }

  lemma QuietUndisturbed(s: State, t: State, g: nat, i: nat)
    requires s.Shaped() && t.Shaped() && |s.pc| == |t.pc| && g < |s.pc| && i < |s.pc| && i != g
    requires Moves(s, t, i) && !s.pc[i].InGetNumber() && Quiet(s, g)
    requires s.pc[g].Chooses() && Checked(t.pc[i], g) ==> Checked(s.pc[i], g)
    ensures Quiet(t, g)
  {
  }

  /** A worker that gives up the ticket the dispatcher is about to re-read had outlived all smaller ids. */
  lemma ScanUndisturbed(s: State, t: State, g: nat, i: nat)
    requires s.Shaped() && t.Shaped() && |s.pc| == |t.pc| && g < |s.pc| && i < |s.pc| && i != g
    requires Moves(s, t, i) && !s.pc[i].InGetNumber() && Ordered(s.number) && ScanOk(s, g)
    requires s.pc[i].Release? ==> forall k | 0 <= k < i :: s.number[k] == 0
    ensures ScanOk(t, g)
  {
  }

  lemma ChoosingBlocks(s: State, g: nat, i: nat)
    requires s.Shaped() && g < |s.pc| && i < |s.pc| && i != g && Local(s, g) && s.pc[g].Chooses()
    requires Checked(Next(s, i).pc[i], g)
    ensures Checked(s.pc[i], g)
  {
  }

  lemma ScanKept(s: State, g: nat, i: nat)
    requires i < |s.pc| && g < |s.pc| && Tickets(s, Getting(g)) && !s.pc[i].InGetNumber()
    ensures ScanOk(Next(s, i), g) && Quiet(Next(s, i), g)
  {
    if s.pc[i].Release? {
      forall k | 0 <= k < i ensures s.number[k] == 0 { SmallerDone(s, Getting(g), i, k); }
    }
    assert Local(s, g) && s.pc[g].InGetNumber();
    NextMoves(s, i);
    if s.pc[g].Chooses() && Checked(Next(s, i).pc[i], g) { ChoosingBlocks(s, g, i); }
    ScanUndisturbed(s, Next(s, i), g, i);
    QuietUndisturbed(s, Next(s, i), g, i);
  }

  lemma OrderWorked(s: State, t: State, d: Dispatcher, i: nat)
    requires s.Shaped() && t.Shaped() && |s.pc| == |t.pc| && i < |s.pc| && Moves(s, t, i)
    requires OneGetter(s, d) && Ordered(s.number) && !s.pc[i].InGetNumber()
    ensures OneGetter(t, d) && Ordered(t.number)
  {
  }

  lemma TicketsWorked(s: State, d: Dispatcher, i: nat)
    requires i < |s.pc| && Tickets(s, d) && !s.pc[i].InGetNumber()
    ensures Tickets(Next(s, i), d)
  {
    InvKept(s, i);
    NextMoves(s, i);
    OrderWorked(s, Next(s, i), d, i);
    if d.Getting? {
      ScanKept(s, d.i, i);
    }
  }

  /** The letter the worker of client i is to hand out. */
  function Letter(i: nat): int { LETTER_A + i }

  /** Letters leave in id order: those handed out are exactly the ones of the ids below the count. */
  ghost predicate Letters(s: State)
    requires s.Shaped()
  {
    && s.symbol >= LETTER_A
    && (forall i | 0 <= i < |s.pc| :: s.pc[i].Stored() <==> Letter(i) < s.symbol)
    && (forall i, k | 0 <= i < k < |s.pc| && s.pc[k].Done? :: s.pc[i].Done?)
  }

  lemma EntersInOrder(s: State, d: Dispatcher, i: nat)
    requires Tickets(s, d) && Letters(s) && i < |s.pc| && s.pc[i].InCritical() && !s.pc[i].Release?
    ensures s.symbol == Letter(i)
  {
    var next := s.symbol - LETTER_A;
    if next < i {
      SmallerDone(s, d, i, next);
    }
  }

  lemma LettersMoved(s: State, t: State, i: nat)
    requires s.Shaped() && t.Shaped() && |s.pc| == |t.pc| && i < |s.pc| && Letters(s)
    requires t.pc == s.pc[i := t.pc[i]] && (s.pc[i].Stored() ==> t.pc[i].Stored())
    requires if s.pc[i].Stored() == t.pc[i].Stored() then t.symbol == s.symbol
             else s.symbol == Letter(i) && t.symbol == Letter(i) + 1
    requires s.pc[i].Done? ==> t.pc[i].Done?
    requires t.pc[i].Done? ==> s.pc[i].Done? || forall k | 0 <= k < i :: s.pc[k].Done?
    ensures Letters(t)
  {
  }

  lemma LettersNext(s: State, i: nat)
    requires s.Shaped() && i < |s.pc| && Letters(s) && Local(s, i)
    requires s.pc[i].StoreSymbol? ==> s.symbol == Letter(i)
    requires s.pc[i].Release? ==> forall k | 0 <= k < i :: s.pc[k].Done?
    ensures Letters(Next(s, i))
  {
    LettersMoved(s, Next(s, i), i);
  }

  lemma LettersKept(s: State, d: Dispatcher, i: nat)
    requires Tickets(s, d) && Letters(s) && i < |s.pc|
    ensures Letters(Next(s, i))
  {
    assert Local(s, i);
    if s.pc[i].StoreSymbol? {
      EntersInOrder(s, d, i);
    }
    if s.pc[i].Release? {
      forall k | 0 <= k < i ensures s.pc[k].Done? { SmallerDone(s, d, i, k); }
    }
    LettersNext(s, i);
  }

  /** The bookkeeping of the dispatcher against the calls of the clients. */
  ghost predicate Books(v: Server)
    requires v.Shaped()
  {
    && Distinct(v.queued) && Distinct(v.asked) && (forall x | x in v.asked :: x in v.queued)
    && (forall i | 0 <= i < |v.lock.pc| :: i in v.queued <==> v.lock.pc[i].IsWorker() || v.lock.pc[i].Done?)
    && |v.asked| == |v.replies| + (if v.disp.Joining? then 1 else 0)
  }

  /** Every slot holds the letter of its own client, and the k-th reply was read from slot k. */
  ghost predicate Slots(v: Server)
    requires v.Shaped()
  {
    && |v.replies| <= |v.queued| <= |v.results|
    && (forall q | 0 <= q < |v.queued| && v.lock.pc[v.queued[q]].Took() :: v.results[q] == Letter(v.queued[q]))
    && (forall k | 0 <= k < |v.replies| :: v.replies[k] == Letter(v.queued[k]) && v.lock.pc[v.queued[k]].Done?)
  }

  ghost predicate Valid(v: Server) {
    v.Shaped() && Tickets(v.lock, v.disp) && Letters(v.lock) && Books(v) && Slots(v)
  }

  /** No array is ever indexed out of bounds: clients that call in order never overrun the slots. */
  lemma WithinSlots(v: Server)
    requires v.Shaped() && Books(v)
    ensures |v.asked| <= |v.queued| <= |v.lock.pc|
  {
    DistinctWithin(v.asked, v.queued);
    var ids := seq(|v.lock.pc|, i => i);
    forall x | x in v.queued ensures x in ids { assert ids[x] == x; }
    DistinctWithin(v.queued, ids);
  }

  lemma RoomLeft(v: Server, id: nat)
    requires v.Shaped() && Books(v) && Slots(v) && id < |v.lock.pc| && v.lock.pc[id].Ticketed?
    ensures |v.queued| < |v.lock.pc|
  {
    assert id !in v.queued;
    var queued := v.queued + [id];
    var ids := seq(|v.lock.pc|, i => i);
    forall x | x in queued ensures x in ids { assert ids[x] == x; }
    DistinctWithin(queued, ids);
  }

  /** Between the calls, a client that has its ticket but no worker yet is where wait_queue expects it. */
  lemma TicketedIff(v: Server, id: nat)
    requires Valid(v) && v.disp.Idle? && id < |v.lock.pc|
    ensures v.lock.pc[id].Ticketed? <==> id < v.lock.num && id !in v.queued
  {
    assert Local(v.lock, id);
  }

  lemma TicketsAllocated(s: State)
    requires Tickets(s, Idle) && s.num < |s.pc|
    ensures Tickets(Apply(s, Allocate), Getting(s.num))
  {
    InvAllocate(s);
    assert Local(s, s.num);
    assert Apply(s, Allocate).pc == s.pc[s.num := Announce];
  }

  /** Neither the start of get_number nor that of a worker hands out a letter. */
  lemma LettersRelabelled(s: State, t: State, i: nat)
    requires s.Shaped() && t.Shaped() && |s.pc| == |t.pc| && i < |s.pc| && Letters(s)
    requires t.pc == s.pc[i := t.pc[i]] && t.symbol == s.symbol
    requires !s.pc[i].Stored() && !t.pc[i].Stored()
    ensures Letters(t)
  {
  }

  /** A fresh id is in no queue. */
  lemma BooksArrived(v: Server)
    requires v.Shaped() && v.disp.Idle? && Books(v) && Slots(v)
    requires v.lock.num < |v.lock.pc| && v.lock.pc[v.lock.num].Unused?
    ensures Books(React(v, GetNumber)) && Slots(React(v, GetNumber))
  {
    assert React(v, GetNumber).lock.pc == v.lock.pc[v.lock.num := Announce];
  }

  lemma ValidGetNumber(v: Server)
    requires Valid(v)
    ensures Valid(React(v, GetNumber))
  {
    var s, w := v.lock, React(v, GetNumber);
    if w != v {
      assert Local(s, s.num);
      TicketsAllocated(s);
      LettersRelabelled(s, w.lock, s.num);
      BooksArrived(v);
    }
  }

  /** get_number never touches the queue, the slots or a worker. */
  lemma BooksDispatched(v: Server)
    requires v.Shaped() && v.disp.Getting? && OneGetter(v.lock, v.disp) && Books(v) && Slots(v)
    ensures Books(React(v, Dispatch)) && Slots(React(v, Dispatch))
  {
    var g := v.disp.i;
    NextMoves(v.lock, g);
    assert v.lock.pc[g].InGetNumber();
    assert g !in v.queued;
  }

  lemma ValidDispatch(v: Server)
    requires Valid(v)
    ensures Valid(React(v, Dispatch))
  {
    if v.disp.Getting? {
      TicketsDispatched(v.lock, v.disp.i);
      LettersKept(v.lock, v.disp, v.disp.i);
      BooksDispatched(v);
    }
  }

  lemma TicketsSpawned(s: State, id: nat)
    requires Tickets(s, Idle) && id < |s.pc| && s.pc[id].Ticketed?
    ensures Tickets(Apply(s, Spawn(id)), Idle)
  {
    InvSpawn(s, id);
  }

  lemma BooksQueued(v: Server, id: nat)
    requires v.Shaped() && Books(v) && Slots(v)
    ensures Books(React(v, WaitQueue(id))) && Slots(React(v, WaitQueue(id)))
  {
    var w := React(v, WaitQueue(id));
    if w != v {
      assert w.lock.pc == v.lock.pc[id := WaitFrom(|v.lock.pc|, 0)];
      assert id !in v.queued;
      assert Books(w);
      WithinSlots(w);
    }
  }

  lemma ValidWaitQueue(v: Server, id: nat)
    requires Valid(v)
    ensures Valid(React(v, WaitQueue(id)))
  {
    var w := React(v, WaitQueue(id));
    BooksQueued(v, id);
    if w != v {
      TicketsSpawned(v.lock, id);
      LettersRelabelled(v.lock, w.lock, id);
    }
  }

  lemma BooksCalled(v: Server, e: Event)
    requires v.Shaped() && Books(v) && Slots(v) && (e.BakeryRes? || e.Join?)
    ensures Books(React(v, e)) && Slots(React(v, e))
  {
    var w := React(v, e);
    assert Books(w);
    WithinSlots(w);
  }

  lemma ValidCall(v: Server, e: Event)
    requires Valid(v) && (e.BakeryRes? || e.Join?)
    ensures Valid(React(v, e))
  {
    BooksCalled(v, e);
  }

  /** A worker that stays a worker or ends leaves the books alone. */
  lemma BooksWorked(v: Server, w: Server, i: nat)
    requires v.Shaped() && w.Shaped() && |v.lock.pc| == |w.lock.pc| && Books(v) && i in v.queued
    requires w == v.(lock := w.lock, results := w.results) && w.lock.pc == v.lock.pc[i := w.lock.pc[i]]
    requires w.lock.pc[i].IsWorker() || w.lock.pc[i].Done?
    ensures Books(w)
  {
  }

  /** It writes its own slot only, and what it writes is its own letter. */
  lemma SlotsWorked(v: Server, w: Server, q: nat)
    requires v.Shaped() && w.Shaped() && |v.lock.pc| == |w.lock.pc| && Books(v) && Slots(v) && q < |v.queued|
    requires w == v.(lock := w.lock, results := w.results)
    requires var i := v.queued[q];
             && w.lock.pc == v.lock.pc[i := w.lock.pc[i]]
             && (v.lock.pc[i].Done? ==> w.lock.pc[i].Done?)
             && (w.lock.pc[i].Took() ==> v.lock.pc[i].Took() || v.lock.pc[i].LoadResult?)
             && w.results == (if v.lock.pc[i].LoadResult? then v.results[q := Letter(i)] else v.results)
    ensures Slots(w)
  {
  }

  lemma LockWorked(s: State, d: Dispatcher, i: nat)
    requires Tickets(s, d) && Letters(s) && i < |s.pc| && !s.pc[i].InGetNumber()
    ensures Tickets(Next(s, i), d) && Letters(Next(s, i))
    ensures s.pc[i].LoadResult? ==> s.symbol == Letter(i)
  {
    TicketsWorked(s, d, i);
    LettersKept(s, d, i);
    if s.pc[i].LoadResult? { EntersInOrder(s, d, i); }
  }

  lemma WorkerStays(s: State, i: nat)
    requires s.Shaped() && i < |s.pc| && (s.pc[i].IsWorker() || s.pc[i].Done?)
    ensures var p := Next(s, i).pc[i];
            && (p.IsWorker() || p.Done?)
            && (s.pc[i].Done? ==> p.Done?)
            && (p.Took() ==> s.pc[i].Took() || s.pc[i].LoadResult?)
  {
  }

  lemma QueuedServed(v: Server, q: nat)
    requires v.Shaped() && Books(v) && q < |v.queued|
    ensures !v.lock.pc[v.queued[q]].InGetNumber()
  {
    assert v.queued[q] in v.queued;
  }

  lemma BooksSlotsWorked(v: Server, q: nat)
    requires v.Shaped() && Books(v) && Slots(v) && q < |v.queued|
    requires v.lock.pc[v.queued[q]].LoadResult? ==> v.lock.symbol == Letter(v.queued[q])
    ensures Books(React(v, Worker(q))) && Slots(React(v, Worker(q)))
  {
    var w, i := React(v, Worker(q)), v.queued[q];
    assert i in v.queued;
    NextMoves(v.lock, i);
    WorkerStays(v.lock, i);
    BooksWorked(v, w, i);
    SlotsWorked(v, w, q);
  }

  lemma ValidWorker(v: Server, q: nat)
    requires Valid(v)
    ensures Valid(React(v, Worker(q)))
  {
    if q < |v.queued| {
      QueuedServed(v, q);
      LockWorked(v.lock, v.disp, v.queued[q]);
      BooksSlotsWorked(v, q);
    }
  }

  lemma ValidReact(v: Server, e: Event)
    requires Valid(v)
    ensures Valid(React(v, e))
  {
    match e
    case GetNumber => ValidGetNumber(v);
    case Dispatch => ValidDispatch(v);
    case WaitQueue(id) => ValidWaitQueue(v, id);
    case Worker(q) => ValidWorker(v, q);
    case _ => ValidCall(v, e);
  }

  lemma {:induction false} ValidRun(v: Server, events: seq<Event>)
    requires Valid(v)
    ensures Valid(Run(v, events))
  {
    if events != [] {
      ValidRun(v, events[..|events| - 1]);
      ValidReact(Run(v, events[..|events| - 1]), events[|events| - 1]);
    }
  }

  lemma ValidStart(n: nat)
    ensures Valid(Start(n))
  {
    Reachable(n, []);
  }
}
