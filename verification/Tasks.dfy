/** Task messages and task identifiers. */
module Tasks {
  import opened Common

  /**
   * A `TaskMessage` is move-only, so the object has an identity: `uid`. A
   * default-constructed message is `Blank`; its header is all zero.
   */
  datatype TaskMessage = Blank | Task(uid: nat, taskId: nat, skillId: nat, awaited: bool)
  {
    function Id(): nat { if Blank? then 0 else taskId }

    predicate IsValid() { Id() != 0 }
  }

  /** The id handed to the k-th caller (counting from 0) of a sequential generator. */
  function NthId(k: nat): (id: nat)
    ensures 1 <= id < TWO_32
  {
    1 + k % (TWO_32 - 1)
  }

  /** `atomic<uint32_t>::fetch_add(1)` on a counter value: the new counter. */
  function Bump(counter: nat): (c: nat)
    ensures c < TWO_32
  {
    (counter + 1) % TWO_32
  }

  class TaskIdGenerator {
    var counter: nat
    ghost var calls: nat

    ghost predicate Valid()
      reads this
    {
      counter == NthId(calls) || (counter == 0 && NthId(calls) == 1)
    }

    constructor ()
      ensures Valid() && calls == 0
    {
      counter := 1;
      calls := 0;
    }

    method GetNextId() returns (id: nat)
      requires Valid()
      modifies this
      ensures Valid() && calls == old(calls) + 1
      ensures id == NthId(old(calls))
    {
      id := counter;
      counter := Bump(counter);
      if id == 0 {
        id := counter;
        counter := Bump(counter);
      }
      NextOfNth(calls);
      calls := calls + 1;
    }
  }

  lemma {:induction false} NextOfNth(k: nat)
    ensures NthId(k + 1) == (if NthId(k) == TWO_32 - 1 then 1 else NthId(k) + 1)
  {
  }

  // ----- Concurrent callers

  /** What the p-th fetch-and-add on the shared counter returns. */
  function Drawn(p: nat): nat { (1 + p) % TWO_32 }

  /** `run` names the callers in the order of their fetch-and-adds: the last one of `caller` before `k`. */
  function LastDraw(run: seq<nat>, k: nat, caller: nat): (q: Option<nat>)
    requires k <= |run|
    ensures q.Some? ==> q.value < k && run[q.value] == caller && forall r :: q.value < r < k ==> run[r] != caller
    ensures q.None? ==> forall r :: 0 <= r < k ==> run[r] != caller
  {
    if k == 0 then None
    else if run[k - 1] == caller then Some(k - 1)
    else LastDraw(run, k - 1, caller)
  }

  /** The draw is the second of its call: the first one came out 0. */
  predicate SecondDraw(run: seq<nat>, p: nat)
    requires p < |run|
    decreases p
  {
    match LastDraw(run, p, run[p])
    case None => false
    case Some(q) => Drawn(q) == 0 && !SecondDraw(run, q)
  }

  /** The id a call returns with this draw, if it returns. */
  function Returned(run: seq<nat>, p: nat): Option<nat>
    requires p < |run|
  {
    if Drawn(p) == 0 && !SecondDraw(run, p) then None else Some(Drawn(p))
  }

  /** Draws `q` and `p` are neighbours among those of one caller. */
  predicate Neighbours(run: seq<nat>, q: nat, p: nat) {
    q < p < |run| && run[q] == run[p] && forall r :: q < r < p ==> run[r] != run[p]
  }

  lemma {:induction false} ZerosLieApart(q: nat, p: nat)
    requires q < p && Drawn(q) == 0 && Drawn(p) == 0
    ensures q + TWO_32 <= p
  {
    var a, b := (1 + q) / TWO_32, (1 + p) / TWO_32;
    assert 1 + q == a * TWO_32 && 1 + p == b * TWO_32;
  }

  /**
   * A call can return the invalid id 0 only if, between its two draws, the other
   * callers drew at least 2^32 - 1 times, that is, once around the counter.
   */
  lemma {:induction false} ZeroNeedsALap(run: seq<nat>, p: nat)
    requires p < |run| && Returned(run, p) == Some(0)
    ensures exists q: nat :: Neighbours(run, q, p) && q + TWO_32 <= p
  {
    var q := LastDraw(run, p, run[p]).value;
    assert Neighbours(run, q, p) && Drawn(q) == 0 && Drawn(p) == 0;
    ZerosLieApart(q, p);
  }

  /** And after such a lap it does: exactly the calls whose two draws both fall on the wrap-around. */
  lemma {:induction false} ZeroExactly(run: seq<nat>, q: nat, p: nat)
    requires Neighbours(run, q, p) && Returned(run, q) == None
    ensures Returned(run, p) == Some(0) <==> (p - q) % TWO_32 == 0
  {
    assert LastDraw(run, p, run[p]) == Some(q);
  }
}
