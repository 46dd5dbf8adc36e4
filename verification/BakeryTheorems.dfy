/** What the bakery server guarantees over every run, for any number n of slots. */
module BakeryTheorems {
  import opened BakeryLock
  import opened BakeryServer
  import opened BakeryTickets
  import opened Distinctness

  /** A run of the server from its initial state. */
  function After(n: nat, events: seq<Event>): (v: Server)
    ensures v.Shaped() && |v.lock.pc| == n
  {
    Run(Start(n), events)
  }

  lemma AlwaysValid(n: nat, events: seq<Event>)
    ensures Valid(After(n, events))
  {
    ValidStart(n);
    ValidRun(Start(n), events);
  }

  /** Mutual exclusion of the worker threads of the server. */
  lemma WorkersExclude(n: nat, events: seq<Event>, q: nat, r: nat)
    requires var v := After(n, events);
             && q < |v.queued| && r < |v.queued|
             && v.lock.pc[v.queued[q]].InCritical() && v.lock.pc[v.queued[r]].InCritical()
    ensures q == r
  {
    AlwaysValid(n, events);
    var v := After(n, events);
    Exclusive(v.lock, v.queued[q], v.queued[r]);
  }

  /**
   * Whatever the workers did between the two loads of lines 45 and 46, the ticket stored at
   * line 47 is larger than every ticket still held, it never exceeds the id plus one, and it is 1
   * or one more than the ticket some earlier client was told.
   */
  lemma TornScanHarmless(n: nat, events: seq<Event>, i: nat)
    requires i < n && After(n, events).disp.Getting?
    requires After(n, events).lock.pc[After(n, events).disp.i].Assign?
    ensures var v, w := After(n, events), React(After(n, events), Dispatch);
            var g := v.disp.i;
            && w.lock.number[g] <= g + 1
            && (i != g ==> w.lock.number[i] == v.lock.number[i] < w.lock.number[g])
            && Told(v.lock.ticket, g, w.lock.number[g] - 1)
  {
    AlwaysValid(n, events);
    ChainAlways(n, events);
    var s, g := After(n, events).lock, After(n, events).disp.i;
    assert Told(s.ticket, g, Base(s, g));
  }

  /**
   * Which ticket the call that has just begun in v will store: whatever happens in between, one more
   * than some value from the largest ticket still held then up to the largest one held now.
   */
  lemma TicketBetween(n: nat, events: seq<Event>, more: seq<Event>, g: nat)
    requires After(n, events).disp == After(n, events + more).disp == Getting(g)
    requires After(n, events).lock.pc[g].Announce? && After(n, events + more).lock.pc[g].Assign?
    ensures var v, w := After(n, events), After(n, events + more);
            Highest(w.lock.number) < React(w, Dispatch).lock.number[g] <= Highest(v.lock.number) + 1
  {
    var v := After(n, events);
    assert Valid(v) by { AlwaysValid(n, events); }
    assert After(n, events + more) == Run(v, more) by { RunConcat(Start(n), events, more); }
    StoredBetween(v, more, g);
  }

  /** The re-read of line 46 never lowers the running maximum: it finds more, or 0 in place of 0. */
  lemma RereadNeverLowers(n: nat, events: seq<Event>, j: nat, max: int)
    requires After(n, events).disp.Getting?
    requires After(n, events).lock.pc[After(n, events).disp.i] == Reread(j, max)
    ensures j < n && (max < After(n, events).lock.number[j] || max == After(n, events).lock.number[j] == 0)
  {
    AlwaysValid(n, events);
  }

  /**
   * Tickets never exceed the number of slots, the held ones are in id order, a client that has been
   * answered was told the ticket it holds, and that is 1 or follows the ticket of an earlier client.
   */
  lemma TicketBound(n: nat, events: seq<Event>, i: nat, k: nat)
    requires i < n && k < n
    ensures var s := After(n, events).lock;
            && 0 <= s.number[i] <= i + 1
            && (i < k && s.number[i] > 0 && s.number[k] > 0 ==> s.number[i] < s.number[k])
            && (s.pc[i].Ticketed? || s.pc[i].IsWorker() ==> s.ticket[i] == s.number[i] > 0)
            && (s.pc[i].Ticketed? || s.pc[i].IsWorker() || s.pc[i].Done? ==> Told(s.ticket, i, s.ticket[i] - 1))
  {
    AlwaysValid(n, events);
    ChainAlways(n, events);
    var s := After(n, events).lock;
    assert Local(s, i) && Told(s.ticket, i, Base(s, i));
  }

  /**
   * First come, first served: once a worker is past its waiting loop every smaller id has given
   * its ticket back and no larger id has got through; the letter it stores is its own.
   */
  lemma FirstComeFirstServed(n: nat, events: seq<Event>, q: nat)
    requires q < |After(n, events).queued|
    requires After(n, events).lock.pc[After(n, events).queued[q]].InCritical()
    ensures var v := After(n, events);
            var i := v.queued[q];
            && q < n
            && (forall k | 0 <= k < i :: v.lock.pc[k].Done?)
            && (forall k | i < k < n :: !v.lock.pc[k].InCritical() && !v.lock.pc[k].Done?)
            && (v.lock.pc[i].LoadResult? ==> React(v, Worker(q)).results[q] == 'a' as int + i)
            && (v.lock.pc[i].StoreSymbol? ==> React(v, Worker(q)).lock.symbol == 'a' as int + i + 1)
  {
    AlwaysValid(n, events);
    var v := After(n, events);
    var s, i := v.lock, v.queued[q];
    assert Local(s, i);
    WithinSlots(v);
    forall k | 0 <= k < i ensures s.pc[k].Done? { SmallerDone(s, v.disp, i, k); }
    forall k | i < k < n ensures !s.pc[k].InCritical() && !s.pc[k].Done? {
      if s.pc[k].InCritical() { Exclusive(s, i, k); }
    }
    if !s.pc[i].Release? { EntersInOrder(s, v.disp, i); }
  }

  /**
   * The k-th reply carries the letter of the client that made the k-th wait_queue call, so a
   * client gets its own letter if and only if it was also the k-th to call wait_queue.
   */
  lemma ReplyMatching(n: nat, events: seq<Event>)
    ensures var v := After(n, events);
            && |v.replies| <= |v.asked| <= |v.queued| <= n
            && (forall k | 0 <= k < |v.replies| :: v.replies[k] == 'a' as int + v.queued[k])
            && ((forall k | 0 <= k < |v.replies| :: v.replies[k] == 'a' as int + v.asked[k])
                <==> v.asked[..|v.replies|] == v.queued[..|v.replies|])
  {
    AlwaysValid(n, events);
    var v := After(n, events);
    WithinSlots(v);
    var a, b := v.asked[..|v.replies|], v.queued[..|v.replies|];
    if forall k | 0 <= k < |v.replies| :: v.replies[k] == Letter(v.asked[k]) {
      assert forall k | 0 <= k < |v.replies| :: a[k] == b[k];
    } else {
      var k :| 0 <= k < |v.replies| && v.replies[k] != Letter(v.asked[k]);
      assert a[k] != b[k];
    }
  }

  /** The clients a run has started, and only those, can be answered. */
  lemma QueuedTicketed(n: nat, events: seq<Event>)
    ensures var v := After(n, events);
            Distinct(v.queued) && |v.replies| <= |v.queued| && forall x | x in v.queued :: x < v.lock.num
  {
    AlwaysValid(n, events);
    var v := After(n, events);
    forall x | x in v.queued ensures x < v.lock.num { assert Local(v.lock, x); }
  }

  /** Distinct clients below num that were answered their own letters: all of them, or a letter is missing. */
  lemma LettersComplete(queued: seq<nat>, replies: seq<int>, num: nat)
    requires Distinct(queued) && |replies| <= |queued| && forall x | x in queued :: x < num
    requires forall k | 0 <= k < |replies| :: replies[k] == Letter(queued[k])
    ensures Distinct(replies) && |replies| <= num
    ensures forall x | x in replies :: LETTER_A <= x < Letter(num)
    ensures |replies| == num <==> forall i | 0 <= i < num :: Letter(i) in replies
  {
    var letters := seq(num, k requires 0 <= k < num => Letter(k));
    forall x | x in replies ensures x in letters && LETTER_A <= x < Letter(num) {
      var k :| 0 <= k < |replies| && replies[k] == x;
      assert queued[k] in queued;
      assert letters[queued[k]] == x;
    }
    DistinctWithin(replies, letters);
    if |replies| == num {
      forall i | 0 <= i < num ensures Letter(i) in replies {
        assert letters[i] in Elements(letters);
        assert Letter(i) in Elements(replies);
      }
    } else if forall i | 0 <= i < num :: Letter(i) in replies {
      DistinctWithin(letters, replies);
    }
  }

  /**
   * No letter is handed out twice, and however many clients have come, all of them have been
   * answered if and only if every client's letter has been handed out.
   */
  lemma CompleteRun(n: nat, events: seq<Event>)
    ensures var v := After(n, events);
            && Distinct(v.replies) && |v.replies| <= v.lock.num
            && (forall x | x in v.replies :: 'a' as int <= x < 'a' as int + v.lock.num)
            && (|v.replies| == v.lock.num <==> forall i | 0 <= i < v.lock.num :: Letter(i) in v.replies)
  {
    var v := After(n, events);
    QueuedTicketed(n, events);
    ReplyMatching(n, events);
    LettersComplete(v.queued, v.replies, v.lock.num);
  }
}
