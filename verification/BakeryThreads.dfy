/**
 * The global variables of bakery_server.c and the code that updates them in place: one method per
 * handler, and one load or store per call for the loops of `get_number` and `bakery`.
 */
module BakeryThreads {
  import opened BakeryLock
  import S = BakeryServer

  class Bakery {
    const choosing: array<int>
    const number: array<int>
    var symbol: int
    var num: nat
    var idxThreadCreate: nat
    const resultId: array<nat>  // threads_results[k].id
    const resultRes: array<int> // threads_results[k].res
    const ticket: array<int>    // targ->num of each get_number call
    const pc: array<Pc>
    var disp: S.Dispatcher
    ghost var letters: seq<int> // the letter each process has taken
    // The calls and the answers of bakery_res; idx_thread_join is the number of answers
    var asked: seq<nat>
    var replies: seq<int>

    ghost predicate Separate()
      reads this
    {
      && choosing.Length == number.Length == ticket.Length == pc.Length == resultId.Length == resultRes.Length
      && choosing != number && choosing != resultRes && choosing != ticket
      && number != resultRes && number != ticket && resultRes != ticket
      && idxThreadCreate <= pc.Length
    }

    ghost function Lock(): State
      reads this, choosing, number, ticket, pc
    {
      State(choosing[..], number[..], symbol, num, ticket[..], letters, pc[..])
    }

    /** The abstract server state these variables stand for. */
    ghost function View(): S.Server
      requires Separate()
      reads this, choosing, number, ticket, pc, resultId, resultRes
    {
      S.Server(Lock(), disp, resultId[..idxThreadCreate], resultRes[..], asked, replies)
    }

    ghost predicate Valid()
      reads this, choosing, number, ticket, pc, resultId, resultRes
    {
      Separate() && S.Valid(View())
    }

    constructor (n: nat)
      ensures Valid() && View() == S.Start(n)
      ensures symbol == 'a' as int && num == 0
      ensures fresh(choosing) && fresh(number) && fresh(ticket) && fresh(pc) && fresh(resultId) && fresh(resultRes)
    {
      choosing, number, ticket := new int[n](_ => 0), new int[n](_ => 0), new int[n](_ => 0);
      resultId, resultRes, pc := new nat[n](_ => 0), new int[n](_ => 0), new Pc[n](_ => Unused);
      letters := seq(n, _ => 0);
      symbol, num, idxThreadCreate, disp, asked, replies := LETTER_A, 0, 0, S.Idle, [], [];
      new;
      assert View() == S.Start(n);
      S.ValidStart(n);
    }

    /** get_number, lines 42-49: the next load or store of process i, on the arrays themselves. */
    method GetNumberStep(i: nat)
      requires Separate() && Lock().Shaped() && i < pc.Length && pc[i].InGetNumber()
      modifies choosing, number, ticket, pc
      ensures Lock() == Next(old(Lock()), i)
    {
      var n := pc.Length;
      match pc[i] {
        case Announce => choosing[i] := 1; pc[i] := Test(0, 0);
        case Test(j, max) => pc[i] := if number[j] > max then Reread(j, max) else ScanFrom(n, j + 1, max);
        case Reread(j, max) => pc[i] := ScanFrom(n, j + 1, number[j]);
        case Assign(max) => number[i] := max + 1; pc[i] := Report;
        case Report => ticket[i] := number[i]; pc[i] := Retract;
        case Retract => choosing[i] := 0; pc[i] := Ticketed;
      }
    }

    /** bakery, lines 62-73: the next load or store of worker i. */
    method BakeryStep(i: nat)
      requires Separate() && Lock().Shaped() && i < pc.Length && !pc[i].InGetNumber()
      modifies this`symbol, this`letters, number, pc
      ensures Lock() == Next(old(Lock()), i)
    {
      var n := pc.Length;
      match pc[i] {
        case WaitChoosing(j) => if choosing[j] == 0 { pc[i] := LoadPositive(j); }
        case LoadPositive(j) => pc[i] := if number[j] > 0 then LoadLess(j) else WaitFrom(n, j + 1);
        case LoadLess(j) => pc[i] := CompareLess(j, number[j]);
        case CompareLess(j, v) => pc[i] := if v < number[i] then LoadPositive(j) else LoadEqual(j);
        case LoadEqual(j) => pc[i] := CompareEqual(j, number[j]);
        case CompareEqual(j, v) =>
          pc[i] := if v == number[i] && j < i then LoadPositive(j) else WaitFrom(n, j + 1);
        case LoadResult => letters := letters[i := symbol]; pc[i] := LoadSymbol;
        case LoadSymbol => pc[i] := StoreSymbol(symbol);
        case StoreSymbol(v) => symbol := v + 1; pc[i] := Release;
        case Release => number[i] := 0; pc[i] := Done;
        case _ =>
      }
    }

    /** get_number_1_svc, lines 39-41: the id is handed out. */
    method GetNumber()
      requires Valid()
      modifies this`num, this`disp, pc
      ensures Valid() && View() == S.React(old(View()), S.GetNumber)
    {
      ghost var v := View();
      if disp.Idle? && num < pc.Length {
        pc[num], disp, num := Announce, S.Getting(num), num + 1;
      }
      assert View() == S.React(v, S.GetNumber);
      S.ValidReact(v, S.GetNumber);
    }

    /** get_number, lines 42-49, one load or store at a time. */
    method Dispatch()
      requires Valid()
      modifies this`disp, choosing, number, ticket, pc
      ensures Valid() && View() == S.React(old(View()), S.Dispatch)
    {
      ghost var v := View();
      if disp.Getting? {
        var i := disp.i;
        GetNumberStep(i);
        if pc[i].Ticketed? { disp := S.Idle; }
      }
      assert View() == S.React(v, S.Dispatch);
      S.ValidReact(v, S.Dispatch);
    }

    /** wait_queue_1_svc. */
    method WaitQueue(id: nat)
      requires Valid()
      modifies this`idxThreadCreate, resultId, pc
      ensures Valid() && View() == S.React(old(View()), S.WaitQueue(id))
      ensures old(disp).Idle? && id < num && id !in old(resultId[..idxThreadCreate]) ==>
                resultId[..idxThreadCreate] == old(resultId[..idxThreadCreate]) + [id] && pc[id].IsWorker()
    {
      ghost var v := View();
      if v.disp.Idle? && id < num { S.TicketedIff(v, id); }
      if disp.Idle? && id < pc.Length && pc[id].Ticketed? {
        S.RoomLeft(v, id);
        resultId[idxThreadCreate] := id;
        pc[id] := WaitFrom(pc.Length, 0);
        idxThreadCreate := idxThreadCreate + 1;
        assert resultId[..idxThreadCreate] == old(resultId[..idxThreadCreate]) + [id];
      }
      assert View() == S.React(v, S.WaitQueue(id));
      S.ValidReact(v, S.WaitQueue(id));
    }

    /** bakery_res_1_svc up to the join. */
    method BakeryRes(id: nat)
      requires Valid()
      modifies this`asked, this`disp
      ensures Valid() && View() == S.React(old(View()), S.BakeryRes(id))
      ensures old(disp).Idle? && id in resultId[..idxThreadCreate] && id !in old(asked) ==>
                disp.Joining? && asked == old(asked) + [id]
    {
      ghost var v := View();
      if disp.Idle? && id in resultId[..idxThreadCreate] && id !in asked {
        asked, disp := asked + [id], S.Joining;
      }
      assert View() == S.React(v, S.BakeryRes(id));
      S.ValidReact(v, S.BakeryRes(id));
    }

    /** bakery_res_1_svc, lines 112-117: the joined worker has ended. */
    method Join()
      requires Valid()
      modifies this`replies, this`disp
      ensures Valid() && View() == S.React(old(View()), S.Join)
      ensures |replies| > |old(replies)| ==> replies == old(replies) + ['a' as int + resultId[|old(replies)|]]
    {
      ghost var v := View();
      var c := |replies|;
      if disp.Joining? && c < idxThreadCreate && pc[resultId[c]].Done? {
        replies, disp := replies + [resultRes[c]], S.Idle;
      }
      assert View() == S.React(v, S.Join);
      S.ValidReact(v, S.Join);
    }

    /** The same for the thread with slot q, which records the letter it takes there. */
    method SlotStep(q: nat)
      requires Separate() && View().Shaped() && q < idxThreadCreate && !pc[resultId[q]].InGetNumber()
      modifies this`symbol, this`letters, number, pc, resultRes
      ensures Separate() && View() == S.React(old(View()), S.Worker(q))
    {
      var i := resultId[q];
      assert i == View().queued[q];
      if pc[i].LoadResult? { resultRes[q] := symbol; }
      BakeryStep(i);
    }

    /** One load or store of the worker thread created by the q-th wait_queue call. */
    method Worker(q: nat)
      requires Valid()
      modifies this`symbol, this`letters, number, pc, resultRes
      ensures Valid() && View() == S.React(old(View()), S.Worker(q))
    {
      S.ValidReact(View(), S.Worker(q));
      if q < idxThreadCreate {
        S.QueuedServed(View(), q);
        SlotStep(q);
      }
    }

    method Handle(e: S.Event)
      requires Valid()
      modifies this`symbol, this`letters, this`num, this`idxThreadCreate, this`disp, this`asked, this`replies,
               choosing, number, ticket, pc, resultId, resultRes
      ensures Valid() && View() == S.React(old(View()), e)
    {
      match e {
        case GetNumber => GetNumber();
        case Dispatch => Dispatch();
        case WaitQueue(id) => WaitQueue(id);
        case BakeryRes(id) => BakeryRes(id);
        case Join => Join();
        case Worker(q) => Worker(q);
      }
    }

    /** What every schedule guarantees of the arrays themselves. */
    lemma Guarantees()
      requires Valid()
      ensures forall i, k | 0 <= i < k < pc.Length :: !(pc[i].InCritical() && pc[k].InCritical())
      ensures |replies| <= idxThreadCreate <= resultId.Length
      ensures forall k | 0 <= k < |replies| :: replies[k] == 'a' as int + resultId[k]
    {
      var v := View();
      forall i, k | 0 <= i < k < pc.Length ensures !(pc[i].InCritical() && pc[k].InCritical()) {
        if pc[i].InCritical() && pc[k].InCritical() { Exclusive(v.lock, i, k); }
      }
      forall k | 0 <= k < |replies| ensures replies[k] == 'a' as int + resultId[k] {
        assert v.queued[k] == resultId[k];
      }
    }

    /**
     * Any schedule of calls and steps: never two processes in the critical section, and the k-th
     * reply is the letter of the client in slot k.
     */
    method Run(events: seq<S.Event>)
      requires Valid()
      modifies this`symbol, this`letters, this`num, this`idxThreadCreate, this`disp, this`asked, this`replies,
               choosing, number, ticket, pc, resultId, resultRes
      ensures Valid() && View() == S.Run(old(View()), events)
      ensures forall i, k | 0 <= i < k < pc.Length :: !(pc[i].InCritical() && pc[k].InCritical())
      ensures |replies| <= idxThreadCreate <= resultId.Length
      ensures forall k | 0 <= k < |replies| :: replies[k] == 'a' as int + resultId[k]
    {
      for k := 0 to |events|
        invariant Valid() && View() == S.Run(old(View()), events[..k])
      {
        assert events[..k + 1][..k] == events[..k];
        Handle(events[k]);
      }
      assert events[..|events|] == events;
      Guarantees();
    }
  }
}
