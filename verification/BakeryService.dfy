/**
 * Which calls the server accepts, and that it can serve everybody: from every reachable state that
 * is not blocked for ever, some continuation answers all clients, in any order of wait_queue calls.
 */
module BakeryService {
  import opened BakeryLock
  import opened BakeryServer
  import opened BakeryTermination
  import opened BakeryTheorems
  import opened BakeryProgress
  import opened Distinctness

  // ----- acceptance

  /** While the dispatcher is idle it accepts exactly the calls of clients that keep to their order. */
  lemma Accepts(n: nat, events: seq<Event>, id: nat)
    requires After(n, events).disp.Idle?
    ensures var v := After(n, events);
            var arrived, queued, asked := React(v, GetNumber), React(v, WaitQueue(id)), React(v, BakeryRes(id));
            && (if v.lock.num < n
                then arrived.disp == Getting(v.lock.num) && arrived.lock.num == v.lock.num + 1 else arrived == v)
            && (if id < v.lock.num && id !in v.queued
                then queued.queued == v.queued + [id] && queued.lock.pc[id].IsWorker() && queued.disp.Idle?
                else queued == v)
            && (if id in v.queued && id !in v.asked
                then asked.disp.Joining? && asked.asked == v.asked + [id] else asked == v)
  {
    AlwaysValid(n, events);
    var v := After(n, events);
    if id < n {
      TicketedIff(v, id);
    }
    forall x | x in v.queued ensures x < n { }
  }

  // ----- the calls of one client

  lemma QueueOnce(n: nat, events: seq<Event>, id: nat)
    requires After(n, events).disp.Idle? && id < After(n, events).lock.num && id !in After(n, events).queued
    ensures var v, w := After(n, events), After(n, events + [WaitQueue(id)]);
            w == v.(lock := w.lock, queued := v.queued + [id]) && w.lock.num == v.lock.num
  {
    Accepts(n, events, id);
    RunConcat(Start(n), events, [WaitQueue(id)]);
    RunCons(After(n, events), WaitQueue(id), []);
  }

  /** Every id below n exactly once. */
  ghost predicate Permutation(order: seq<nat>, n: nat) {
    |order| == n && Distinct(order) && forall x | x in order :: x < n
  }

  lemma Covers(order: seq<nat>, n: nat, i: nat)
    requires Permutation(order, n) && i < n
    ensures i in order
  {
    var ids := seq(n, k => k);
    forall x | x in order ensures x in ids { assert ids[x] == x; }
    DistinctWithin(order, ids);
    assert ids[i] in Elements(ids);
    assert i in Elements(order);
  }

  /** Tickets have been handed out, and nothing else has happened. */
  ghost predicate OnlyLock(v: Server, w: Server) {
    w.disp == v.disp && w.queued == v.queued && w.asked == v.asked && w.replies == v.replies
  }

  lemma OneTicket(n: nat, events: seq<Event>) returns (longer: seq<Event>)
    requires After(n, events).disp.Idle? && After(n, events).lock.num < n
    ensures events <= longer && OnlyLock(After(n, events), After(n, longer))
    ensures After(n, longer).lock.num == After(n, events).lock.num + 1
  {
    longer := TakeTicket(n, events);
  }

  lemma {:induction false} TicketAll(n: nat, events: seq<Event>) returns (longer: seq<Event>)
    requires After(n, events).disp.Idle?
    ensures events <= longer && OnlyLock(After(n, events), After(n, longer)) && After(n, longer).lock.num == n
    decreases n - After(n, events).lock.num
  {
    longer := events;
    if After(n, events).lock.num < n {
      var next := OneTicket(n, events);
      longer := TicketAll(n, next);
    }
  }

  lemma {:induction false} QueueAll(n: nat, events: seq<Event>, order: seq<nat>) returns (longer: seq<Event>)
    requires After(n, events).disp.Idle? && After(n, events).lock.num == n
    requires Permutation(order, n) && After(n, events).queued <= order
    ensures events <= longer && After(n, longer).disp.Idle? && After(n, longer).queued == order
    decreases n - |After(n, events).queued|
  {
    longer := events;
    var queued := After(n, events).queued;
    if |queued| < n {
      var id := order[|queued|];
      assert id in order && id !in queued;
      QueueOnce(n, events, id);
      assert queued + [id] <= order;
      longer := QueueAll(n, events + [WaitQueue(id)], order);
    } else {
      assert queued == order;
    }
  }

  /** The first moment the awaited reply is given: nothing else has been called meanwhile. */
  lemma {:induction false} FirstAnswer(v: Server, c: nat, events: seq<Event>) returns (first: seq<Event>)
    requires Valid(v) && Hopeful(v, c) && v.replies < Run(v, events).replies
    ensures var w := Run(v, first);
            w.disp.Idle? && w.queued == v.queued && w.asked == v.asked && w.replies == v.replies + [Letter(c)]
    decreases |events|
  {
    assert events != [];
    var e, rest := events[0], events[1..];
    assert events == [e] + rest;
    RunCons(v, e, rest);
    HopefulStep(v, c, e);
    HopefulReact(v, c, e);
    first := [e];
    if !(e.Join? && v.lock.pc[c].Done?) {
      ValidReact(v, e);
      var tail := FirstAnswer(React(v, e), c, rest);
      first := [e] + tail;
      RunCons(v, e, tail);
    }
  }

  /** A blocked dispatcher in the good case answers and is idle again. */
  lemma Unblocks(n: nat, events: seq<Event>) returns (longer: seq<Event>)
    requires After(n, events).disp.Joining?
    requires |After(n, events).replies| < |After(n, events).queued| <= n
    requires AllServed(After(n, events), Awaited(After(n, events)))
    ensures events <= longer
    ensures var v, w := After(n, events), After(n, longer);
            w.disp.Idle? && w.queued == v.queued && w.asked == v.asked && |w.replies| == |v.replies| + 1
  {
    AlwaysValid(n, events);
    var v := After(n, events);
    var c := Awaited(v);
    var rounds := FairScheduleExists(v, c);
    FairReply(v, c, rounds);
    var first := FirstAnswer(v, c, Flatten(rounds));
    longer := events + first;
    RunConcat(Start(n), events, first);
  }

  lemma AskOnce(n: nat, events: seq<Event>, id: nat)
    requires After(n, events).disp.Idle? && id in After(n, events).queued && id !in After(n, events).asked
    ensures var v, w := After(n, events), After(n, events + [BakeryRes(id)]);
            w == v.(disp := Joining, asked := v.asked + [id])
  {
    RunConcat(Start(n), events, [BakeryRes(id)]);
    RunCons(After(n, events), BakeryRes(id), []);
  }

  lemma SomeoneUnasked(v: Server) returns (id: nat)
    requires Valid(v) && v.disp.Idle? && |v.replies| < |v.queued|
    ensures id in v.queued && id !in v.asked
  {
    if forall x | x in v.queued :: x in v.asked { DistinctWithin(v.queued, v.asked); }
    id :| id in v.queued && id !in v.asked;
  }

  lemma AnswerOnce(n: nat, events: seq<Event>) returns (longer: seq<Event>)
    requires After(n, events).disp.Idle? && Permutation(After(n, events).queued, n)
    requires |After(n, events).replies| < n
    ensures events <= longer && After(n, longer).disp.Idle?
    ensures After(n, longer).queued == After(n, events).queued
    ensures |After(n, longer).replies| == |After(n, events).replies| + 1
  {
    AlwaysValid(n, events);
    var id := SomeoneUnasked(After(n, events));
    AskOnce(n, events, id);
    var v := After(n, events + [BakeryRes(id)]);
    forall i | 0 <= i < Awaited(v) && v.lock.number[i] > 0 ensures i in v.queued { Covers(v.queued, n, i); }
    longer := Unblocks(n, events + [BakeryRes(id)]);
  }

  /** One client after the other calls bakery_res, in whatever order; each call is answered. */
  lemma {:induction false} AnswerAll(n: nat, events: seq<Event>) returns (longer: seq<Event>)
    requires After(n, events).disp.Idle? && Permutation(After(n, events).queued, n)
    ensures events <= longer
    ensures After(n, longer).queued == After(n, events).queued && |After(n, longer).replies| == n
    decreases n - |After(n, events).replies|
  {
    longer := events;
    ReplyMatching(n, events);
    if |After(n, events).replies| < n {
      var next := AnswerOnce(n, events);
      longer := AnswerAll(n, next);
    }
  }

  // ----- the service

  /** The letters of the clients in this order. */
  function LettersOf(order: seq<nat>): seq<int> {
    seq(|order|, k requires 0 <= k < |order| => 'a' as int + order[k])
  }

  lemma RepliesComplete(n: nat, events: seq<Event>, order: seq<nat>)
    requires After(n, events).queued == order && |After(n, events).replies| == |order|
    ensures After(n, events).replies == LettersOf(order)
  {
    ReplyMatching(n, events);
  }

  /**
   * From every reachable idle state, and for every order in which the remaining clients call
   * wait_queue, all clients can be answered; the k-th reply is the letter of the k-th of them.
   */
  lemma EveryOrderServed(n: nat, events: seq<Event>, order: seq<nat>) returns (longer: seq<Event>)
    requires After(n, events).disp.Idle? && After(n, events).queued <= order && Permutation(order, n)
    ensures events <= longer && After(n, longer).queued == order
    ensures After(n, longer).replies == LettersOf(order)
  {
    var ticketed := TicketAll(n, events);
    var queued := QueueAll(n, ticketed, order);
    longer := AnswerAll(n, queued);
    RepliesComplete(n, longer, order);
  }

  /** The clients in the order of their ids are told 'a', 'b', 'c' and so on. */
  lemma InOrderService(n: nat) returns (events: seq<Event>)
    ensures After(n, events).replies == seq(n, k => 'a' as int + k)
  {
    var order := seq(n, k requires 0 <= k < n => k);
    events := EveryOrderServed(n, [], order);
  }

  lemma {:induction false} Extend(queued: seq<nat>, n: nat) returns (order: seq<nat>)
    requires Distinct(queued) && |queued| <= n && forall x | x in queued :: x < n
    ensures queued <= order && Permutation(order, n)
    decreases n - |queued|
  {
    order := queued;
    if |queued| < n {
      var ids := seq(n, k => k);
      assert forall k: nat | k < n :: ids[k] == k;
      if forall x | x in ids :: x in queued { DistinctWithin(ids, queued); }
      var id :| id in ids && id !in queued;
      order := Extend(queued + [id], n);
    }
  }

  /** Whatever the server is doing, unless it is blocked for ever it can become idle. */
  lemma BecomesIdle(n: nat, events: seq<Event>) returns (longer: seq<Event>)
    requires var v := After(n, events);
             v.disp.Joining? ==> |v.replies| < |v.queued| && AllServed(v, Awaited(v))
    ensures events <= longer && After(n, longer).disp.Idle?
  {
    longer := events;
    var v := After(n, events);
    if v.disp.Getting? {
      var steps := GetNumberCompletes(n, events, v.disp.i);
      longer := events + steps;
    } else if v.disp.Joining? {
      ReplyMatching(n, events);
      longer := Unblocks(n, events);
    }
  }

  lemma Servable(n: nat, events: seq<Event>) returns (longer: seq<Event>)
    requires var v := After(n, events);
             v.disp.Joining? ==> |v.replies| < |v.queued| && AllServed(v, Awaited(v))
    ensures events <= longer && |After(n, longer).replies| == n
  {
    longer := BecomesIdle(n, events);
    QueuedTicketed(n, longer);
    ReplyMatching(n, longer);
    var order := Extend(After(n, longer).queued, n);
    longer := EveryOrderServed(n, longer, order);
  }

  lemma NeverServed(n: nat, events: seq<Event>, more: seq<Event>)
    requires var v := After(n, events);
             v.disp.Joining? && |v.replies| < |v.queued| && !AllServed(v, Awaited(v))
    ensures |After(n, events + more).replies| < n
  {
    AlwaysValid(n, events);
    ReplyMatching(n, events);
    StuckForever(After(n, events), more);
    RunConcat(Start(n), events, more);
  }

  /**
   * All clients can still be answered if and only if the dispatcher is not waiting for a client
   * while a smaller ticket has no worker.
   */
  lemma ServableIff(n: nat, events: seq<Event>)
    ensures var v := After(n, events);
            && (v.disp.Joining? ==> |v.replies| < |v.queued| && Awaited(v) < n)
            && ((exists more :: |After(n, events + more).replies| == n)
                <==> (v.disp.Joining? ==> AllServed(v, Awaited(v))))
  {
    var v := After(n, events);
    if v.disp.Joining? { JoinReturnsIff(n, events); }
    if v.disp.Joining? && !AllServed(v, Awaited(v)) {
      forall more ensures |After(n, events + more).replies| != n { NeverServed(n, events, more); }
    } else {
      var longer := Servable(n, events);
      assert longer == events + longer[|events|..];
    }
  }
}
