/** The shared segment of pc.c and the code of its producers and consumers, working on it in place. */
module SharedBuffer {
  import opened Semaphores
  import opened ProducerConsumer

  class Segment {
    const semid: SemaphoreSet
    const blank: int
    var cells: seq<int> // the written part of the segment, from addr3 on
    var put: nat        // *ptr_prod
    var get: nat        // *ptr_cons
    var alfa: int
    const pc: array<Pc>
    var produced: seq<int>
    var consumed: seq<int>

    ghost function View(): State
      reads this, semid, semid.value, pc
    {
      State(semid.value[..], cells, blank, put, get, alfa, pc[..], produced, consumed)
    }

    ghost predicate Valid()
      reads this, semid, semid.value, pc
    {
      Inv(View())
    }

    /** main: the semaphores, the pointers and the first letter are set, the processes are forked. */
    constructor (producers: nat, consumers: nat, blank: int)
      ensures Valid() && View() == Initial(Forked(producers, consumers), blank)
      ensures semid.value[..] == [1, 128, 0] && put == get == 0 && alfa == 'a' as int
      ensures fresh(semid) && fresh(semid.value) && fresh(pc)
    {
      semid := new SemaphoreSet([1, SIZE_BUF, 0]);
      pc := new Pc[producers + consumers](i => if i < producers then PStart else CStart);
      this.blank, cells, put, get, alfa, produced, consumed := blank, [], 0, 0, 'a' as int, [], [];
      new;
      assert View() == Initial(Forked(producers, consumers), blank);
      AlwaysInv(producers, consumers, blank, []);
    }

    /** Semop call of process p: it goes on at q once the list is granted. */
    method Call(p: nat, ops: seq<Op>, q: Pc)
      requires View().Shaped() && p < pc.Length && forall o | o in ops :: o.num < 3
      modifies semid.value, pc
      ensures View() == old(View()).Call(p, ops, q)
    {
      var granted := semid.Attempt(ops);
      if granted { pc[p] := q; }
    }

    method WriteCell(a: nat, v: int)
      modifies this`cells
      ensures cells == old(View()).Write(a, v)
    {
      if a < |cells| {
        cells := cells[a := v];
      } else {
        cells := cells + seq(a - |cells|, _ => blank) + [v];
      }
    }

    /** The producer loop, lines 40-66. */
    method Producer(p: nat)
      requires Valid() && p < pc.Length && pc[p].IsProducer()
      modifies this`cells, this`put, this`alfa, this`produced, semid.value, pc
      ensures Valid() && View() == Next(old(View()), p)
    {
      ghost var s := View();
      match pc[p] {
        case PStart => Call(p, START_PRODUCE, PLoad);
        case PLoad => pc[p] := PStore(alfa);
        case PStore(v) => WriteCell(put, v); pc[p] := PShow;
        case PShow => produced, pc[p] := produced + [if put < |cells| then cells[put] else blank], PLoadPtr;
        case PLoadPtr => pc[p] := PStorePtr(put);
        case PStorePtr(q) => put, pc[p] := q + 1, PLoadAlfa;
        case PLoadAlfa => pc[p] := PStoreAlfa(alfa);
        case PStoreAlfa(v) => alfa, pc[p] := Incr(v), PStop;
        case PStop => Call(p, STOP_PRODUCE, PStart);
      }
      assert View() == Next(s, p);
      InvKept(s, p);
    }

    /** The consumer loop, lines 70-91: it increments the cell, never the pointer. */
    method Consumer(p: nat)
      requires Valid() && p < pc.Length && pc[p].IsConsumer()
      modifies this`cells, this`consumed, semid.value, pc
      ensures Valid() && View() == Next(old(View()), p)
    {
      ghost var s := View();
      match pc[p] {
        case CStart => Call(p, START_CONSUME, CShow);
        case CShow => consumed, pc[p] := consumed + [if get < |cells| then cells[get] else blank], CLoad;
        case CLoad => pc[p] := CStore(if get < |cells| then cells[get] else blank);
        case CStore(v) => WriteCell(get, Incr(v)); pc[p] := CStop;
        case CStop => Call(p, STOP_CONSUME, CStart);
      }
      assert View() == Next(s, p);
      InvKept(s, p);
    }

    /**
     * Any schedule of the processes: what is consumed is the start of what is produced, the letters
     * in their order, although the consumers' pointer has not moved.
     */
    method Execute(schedule: seq<nat>)
      requires Valid()
      modifies this`cells, this`put, this`alfa, this`produced, this`consumed, semid.value, pc
      ensures Valid() && View() == Run(old(View()), schedule)
      ensures consumed <= produced && get == 0
      ensures forall k | 0 <= k < |produced| :: produced[k] == ('a' as int + k) % 256
    {
      for k := 0 to |schedule|
        invariant Valid() && View() == Run(old(View()), schedule[..k])
      {
        assert schedule[..k + 1][..k] == schedule[..k];
        var p := schedule[k];
        if p < pc.Length {
          if pc[p].IsProducer() { Producer(p); } else { Consumer(p); }
        }
      }
      assert schedule[..|schedule|] == schedule;
      QueueLength(View());
    }
  }
}
