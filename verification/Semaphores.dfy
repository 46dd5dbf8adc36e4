/** System V semaphore sets: `semop` as specified by POSIX.1-2017, XSI option, without IPC_NOWAIT. */
module Semaphores {

  /** One element of a sembuf list: which semaphore, and by how much. */
  datatype Op = Op(num: nat, delta: int)

  datatype Outcome = Blocked | Granted(sems: seq<int>)

  /** A negative delta needs that much, a zero delta waits for zero. */
  predicate Allows(value: int, delta: int) {
    if delta == 0 then value == 0 else value + delta >= 0
  }

  /** The operations are tried in list order and take effect all together or not at all. */
  function Semop(sems: seq<int>, ops: seq<Op>): (r: Outcome)
    requires forall o | o in ops :: o.num < |sems|
    ensures r.Granted? ==> |r.sems| == |sems|
    decreases |ops|
  {
    if ops == [] then Granted(sems)
    else if !Allows(sems[ops[0].num], ops[0].delta) then Blocked
    else Semop(sems[ops[0].num := sems[ops[0].num] + ops[0].delta], ops[1..])
  }

  /** The sum of the deltas a list applies to semaphore k. */
  function Net(ops: seq<Op>, k: nat): int {
    if ops == [] then 0 else (if ops[0].num == k then ops[0].delta else 0) + Net(ops[1..], k)
  }

  /** A granted list changes every semaphore by exactly its net amount. */
  lemma {:induction false} SemopNet(sems: seq<int>, ops: seq<Op>, k: nat)
    requires forall o | o in ops :: o.num < |sems|
    requires k < |sems| && Semop(sems, ops).Granted?
    ensures Semop(sems, ops).sems[k] == sems[k] + Net(ops, k)
    decreases |ops|
  {
    if ops != [] {
      SemopNet(sems[ops[0].num := sems[ops[0].num] + ops[0].delta], ops[1..], k);
    }
  }

  /** The amount semaphore k has when the list comes to its j-th operation. */
  function Reached(sems: seq<int>, ops: seq<Op>, j: nat, k: nat): int
    requires k < |sems| && j <= |ops|
  {
    sems[k] + Net(ops[..j], k)
  }

  /**
   * A call is granted if and only if each operation finds what it needs: 0 for a delta of 0, and
   * otherwise at least as much as it takes.
   */
  lemma {:induction false} SemopGrantedIff(sems: seq<int>, ops: seq<Op>)
    requires forall o | o in ops :: o.num < |sems|
    ensures Semop(sems, ops).Granted? <==>
            forall j | 0 <= j < |ops| ::
              if ops[j].delta == 0 then Reached(sems, ops, j, ops[j].num) == 0
              else Reached(sems, ops, j, ops[j].num) + ops[j].delta >= 0
    decreases |ops|
  {
    if ops != [] {
      var a, rest := ops[0], ops[1..];
      var t := sems[a.num := sems[a.num] + a.delta];
      SemopGrantedIff(t, rest);
      assert Reached(sems, ops, 0, a.num) == sems[a.num];
      forall j | 0 <= j < |rest| ensures Reached(t, rest, j, rest[j].num) == Reached(sems, ops, j + 1, ops[j + 1].num) {
        assert ops[..j + 1][0] == a && ops[..j + 1][1..] == rest[..j];
      }
    }
  }

  // The closed forms of short lists, one unfolding at a time

  lemma SemopOne(sems: seq<int>, ops: seq<Op>, a: Op)
    requires ops == [a] && a.num < |sems|
    ensures Semop(sems, ops) ==
            if Allows(sems[a.num], a.delta) then Granted(sems[a.num := sems[a.num] + a.delta]) else Blocked
  {
    assert ops[1..] == [];
  }

  lemma SemopCons(sems: seq<int>, ops: seq<Op>, a: Op, rest: seq<Op>)
    requires ops == [a] + rest && a.num < |sems| && forall o | o in rest :: o.num < |sems|
    ensures Semop(sems, ops) ==
            if Allows(sems[a.num], a.delta) then Semop(sems[a.num := sems[a.num] + a.delta], rest) else Blocked
  {
    assert ops[1..] == rest;
  }

  /** A semaphore set in the kernel, updated in place. */
  class SemaphoreSet {
    const value: array<int>

    constructor (initial: seq<int>)
      ensures fresh(value) && value[..] == initial
    {
      value := new int[|initial|](i requires 0 <= i < |initial| => initial[i]);
    }

    /** One attempt of a semop call: either the whole list takes effect or the set is untouched. */
    method Attempt(ops: seq<Op>) returns (granted: bool)
      requires forall o | o in ops :: o.num < value.Length
      modifies value
      ensures granted == Semop(old(value[..]), ops).Granted?
      ensures value[..] == if granted then Semop(old(value[..]), ops).sems else old(value[..])
    {
      var t := value[..];
      for k := 0 to |ops|
        invariant |t| == value.Length && value[..] == old(value[..])
        invariant Semop(t, ops[k..]) == Semop(old(value[..]), ops)
      {
        assert ops[k..][1..] == ops[k + 1..];
        if !Allows(t[ops[k].num], ops[k].delta) { return false; }
        t := t[ops[k].num := t[ops[k].num] + ops[k].delta];
      }
      forall i | 0 <= i < value.Length { value[i] := t[i]; }
      assert value[..] == t;
      return true;
    }
  }
}
