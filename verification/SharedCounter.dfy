/** The shared integer of rw.c and the code of its readers and writers, working on it in place. */
module SharedCounter {
  import opened Semaphores
  import opened ReadersWriters

  class Counter {
    const semid: SemaphoreSet
    var shm: int
    const pc: array<Pc>
    ghost var starts: nat
    ghost var sessions: nat
    ghost var increments: nat
    var printed: seq<int>

    ghost function View(): State
      reads this, semid, semid.value, pc
    {
      State(semid.value[..], shm, pc[..], starts, sessions, increments, printed)
    }

    ghost predicate Valid()
      reads this, semid, semid.value, pc
    {
      Inv(View())
    }

    /** main: only BIN_WRITER is set, then the processes are forked. */
    constructor (writers: nat, readers: nat)
      ensures Valid() && View() == Initial(Forked(writers, readers))
      ensures semid.value[..] == [0, 0, 0, 0, 1] && shm == 0
      ensures fresh(semid) && fresh(semid.value) && fresh(pc)
    {
      semid := new SemaphoreSet([0, 0, 0, 0, 1]);
      pc := new Pc[writers + readers](i => if i < writers then WStart else RStart);
      shm, starts, sessions, increments, printed := 0, 0, 0, 0, [];
      new;
      assert View() == Initial(Forked(writers, readers));
      AlwaysInv(writers, readers, []);
    }

    /** A semop call of process p with the first `count` elements of a list. */
    method Call(p: nat, ops: seq<Op>, count: nat, q: Pc)
      requires View().Shaped() && p < pc.Length && count <= |ops| && forall o | o in ops :: o.num < 5
      modifies semid.value, pc, this`starts, this`sessions
      ensures View() == old(View()).Call(p, ops, count, q)
    {
      var granted := semid.Attempt(ops[..count]);
      if granted {
        pc[p] := q;
        starts := if q.RPrint? then starts + 1 else starts;
        sessions := if q.WLoad? then sessions + 1 else sessions;
      }
    }

    /** The reader loop, lines 39-45. */
    method Reader(p: nat)
      requires Valid() && p < pc.Length && pc[p].IsReader()
      modifies this`starts, this`sessions, this`printed, semid.value, pc
      ensures Valid() && View() == Next(old(View()), p)
    {
      ghost var s := View();
      match pc[p] {
        case RStart => Call(p, START_READ, 4, RPrint);
        case RPrint => printed, pc[p] := printed + [shm], RStop;
        case RStop => Call(p, STOP_READ, 1, RStart);
      }
      assert View() == Next(s, p);
      InvKept(s, p);
    }

    /** The writer loop, lines 50-57. */
    method Writer(p: nat)
      requires Valid() && p < pc.Length && !pc[p].IsReader()
      modifies this`starts, this`sessions, this`shm, this`increments, this`printed, semid.value, pc
      ensures Valid() && View() == Next(old(View()), p)
    {
      ghost var s := View();
      match pc[p] {
        case WStart => Call(p, START_WRITE, 4, WLoad);
        case WLoad => pc[p] := WStore(shm);
        case WStore(v) => shm, increments, pc[p] := v + 1, increments + 1, WPrint;
        case WPrint => printed, pc[p] := printed + [shm], WStop;
        case WStop => Call(p, STOP_WRITE, 1, WStart);
      }
      assert View() == Next(s, p);
      InvKept(s, p);
    }

    /** Two writers are never inside together. */
    lemma WritersApart()
      requires Valid()
      ensures forall p, q | 0 <= p < q < pc.Length :: !(pc[p].Writing() && pc[q].Writing())
    {
      var s := View();
      forall p, q | 0 <= p < q < pc.Length ensures !(pc[p].Writing() && pc[q].Writing()) {
        if pc[p].Writing() && pc[q].Writing() { AloneWriting(s, p, q); }
      }
    }

    /**
     * Any schedule of the processes: the counter is the number of completed increments, what was
     * printed never decreases, and no two writers are inside.
     */
    method Execute(schedule: seq<nat>)
      requires Valid()
      modifies this`starts, this`sessions, this`shm, this`increments, this`printed, semid.value, pc
      ensures Valid() && View() == Run(old(View()), schedule)
      ensures shm == increments && shm + ToIncrement(pc[..]) == sessions && Ascending(printed, shm)
      ensures |printed| + ToPrint(pc[..]) == starts + sessions
      ensures forall p, q | 0 <= p < q < pc.Length :: !(pc[p].Writing() && pc[q].Writing())
    {
      for k := 0 to |schedule|
        invariant Valid() && View() == Run(old(View()), schedule[..k])
      {
        assert schedule[..k + 1][..k] == schedule[..k];
        var p := schedule[k];
        if p < pc.Length {
          if pc[p].IsReader() { Reader(p); } else { Writer(p); }
        }
      }
      assert schedule[..|schedule|] == schedule;
      WritersApart();
    }
  }
}
