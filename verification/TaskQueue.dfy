/**
 * The lock-protected sections of `TaskMessageQueue`: first as functions on the
 * queue's value, then as a class that runs the original loops and is proved to
 * compute those functions.
 */
module TaskQueue {
  import opened Common
  import opened Tasks

  /**
   * A parked coroutine. Handle, awaiter and token of one waiter belong to one
   * session, so the session stands for all three; `ticket` numbers the park.
   */
  datatype Waiter = Waiter(session: nat, ticket: nat)

  datatype Queue = Queue(tasks: seq<TaskMessage>, waiters: seq<Waiter>)

  /** Waiters left after the leading ones whose token was seen cancelled are popped. */
  function SkipCancelled(ws: seq<Waiter>, seen: set<nat>): seq<Waiter> {
    if ws == [] || ws[0].session !in seen then ws else SkipCancelled(ws[1..], seen)
  }

  /** One added task: the queue afterwards and the waiter that got the task, if any. */
  function Enqueue(q: Queue, t: TaskMessage, seen: set<nat>): (Queue, Option<Waiter>) {
    var live := SkipCancelled(q.waiters, seen);
    if live != [] then (Queue(q.tasks, live[1..]), Some(live[0]))
    else (Queue(q.tasks + [t], []), None)
  }

  /** Waiters left when every one whose token was seen cancelled is discarded. */
  function Live(ws: seq<Waiter>, seen: set<nat>): seq<Waiter> {
    if ws == [] then []
    else (if ws[0].session in seen then [] else [ws[0]]) + Live(ws[1..], seen)
  }

  /** Waiters left when the first one of `session` is taken out. */
  function Without(ws: seq<Waiter>, session: nat): seq<Waiter> {
    if ws == [] then []
    else if ws[0].session == session then ws[1..]
    else [ws[0]] + Without(ws[1..], session)
  }

  /** The first waiter of `session`. */
  function First(ws: seq<Waiter>, session: nat): Option<Waiter> {
    if ws == [] then None
    else if ws[0].session == session then Some(ws[0])
    else First(ws[1..], session)
  }

  // ----- How the functions treat membership and order

  /** Strictly increasing: waiters stand in parking order. */
  ghost predicate Increasing(xs: seq<nat>) {
    forall i, j :: 0 <= i < j < |xs| ==> xs[i] < xs[j]
  }

  function Tickets(ws: seq<Waiter>): (r: seq<nat>)
    ensures |r| == |ws|
    ensures forall i :: 0 <= i < |ws| ==> r[i] == ws[i].ticket
  {
    seq(|ws|, i requires 0 <= i < |ws| => ws[i].ticket)
  }

  /** Skipping drops a prefix, and only waiters seen cancelled. */
  lemma {:induction false} SkipIsSuffix(ws: seq<Waiter>, seen: set<nat>) returns (k: nat)
    ensures k <= |ws| && SkipCancelled(ws, seen) == ws[k..]
    ensures forall i :: 0 <= i < k ==> ws[i].session in seen
    ensures k < |ws| ==> ws[k].session !in seen
  {
    if ws == [] || ws[0].session !in seen {
      k := 0;
    } else {
      var k' := SkipIsSuffix(ws[1..], seen);
      k := k' + 1;
      forall i | 0 <= i < k ensures ws[i].session in seen {
        if i > 0 { assert ws[i] == ws[1..][i - 1]; }
      }
    }
  }

  lemma {:induction false} ConsIncreasing(w: Waiter, ws: seq<Waiter>)
    requires Increasing(Tickets(ws)) && forall x :: x in ws ==> w.ticket < x.ticket
    ensures Increasing(Tickets([w] + ws))
  {
    var all := [w] + ws;
    forall i, j | 0 <= i < j < |all| ensures all[i].ticket < all[j].ticket {
      assert all[j] == ws[j - 1];
      if i > 0 {
        assert all[i] == ws[i - 1];
        assert Tickets(ws)[i - 1] < Tickets(ws)[j - 1];
      }
    }
  }

  lemma {:induction false} TailIncreasing(ws: seq<Waiter>)
    requires ws != [] && Increasing(Tickets(ws))
    ensures Increasing(Tickets(ws[1..]))
    ensures forall x :: x in ws[1..] ==> ws[0].ticket < x.ticket
  {
    forall i, j | 0 <= i < j < |ws[1..]| ensures ws[1..][i].ticket < ws[1..][j].ticket {
      assert Tickets(ws)[i + 1] < Tickets(ws)[j + 1];
    }
    forall x | x in ws[1..] ensures ws[0].ticket < x.ticket {
      var j :| 0 <= j < |ws[1..]| && ws[1..][j] == x;
      assert Tickets(ws)[0] < Tickets(ws)[j + 1];
    }
  }

  /** Draining keeps order and discards exactly the waiters seen cancelled. */
  lemma {:induction false} LiveExact(ws: seq<Waiter>, seen: set<nat>)
    ensures forall w :: w in Live(ws, seen) <==> w in ws && w.session !in seen
    ensures Increasing(Tickets(ws)) ==> Increasing(Tickets(Live(ws, seen)))
  {
    if ws != [] {
      LiveExact(ws[1..], seen);
      if Increasing(Tickets(ws)) {
        TailIncreasing(ws);
        if ws[0].session !in seen { ConsIncreasing(ws[0], Live(ws[1..], seen)); }
      }
    }
  }

  /** Taking out one session's waiter leaves every other waiter. */
  lemma {:induction false} WithoutExact(ws: seq<Waiter>, session: nat)
    ensures forall w :: w in Without(ws, session) ==> w in ws
    ensures forall w :: w in ws && w.session != session ==> w in Without(ws, session)
    ensures match First(ws, session)
            case None => Without(ws, session) == ws && forall w :: w in ws ==> w.session != session
            case Some(w) => w in ws && w.session == session
  {
    if ws != [] && ws[0].session != session {
      WithoutExact(ws[1..], session);
      assert ws == [ws[0]] + ws[1..];
    }
  }

  /** ... in the same order, and leaves no trace of the one taken out. */
  lemma {:induction false} WithoutOrdered(ws: seq<Waiter>, session: nat)
    requires Increasing(Tickets(ws))
    ensures Increasing(Tickets(Without(ws, session)))
    ensures First(ws, session).Some? ==> First(ws, session).value !in Without(ws, session)
  {
    if ws != [] {
      TailIncreasing(ws);
      if ws[0].session != session {
        WithoutOrdered(ws[1..], session);
        WithoutExact(ws[1..], session);
        ConsIncreasing(ws[0], Without(ws[1..], session));
      }
    }
  }

  /**
   * An add serves the first waiter not seen cancelled and keeps those behind it;
   * it skips only waiters seen cancelled, and stores the task only if none is left.
   */
  lemma {:induction false} EnqueueExact(q: Queue, t: TaskMessage, seen: set<nat>)
    requires Increasing(Tickets(q.waiters))
    ensures var (q', got) := Enqueue(q, t, seen);
            && Increasing(Tickets(q'.waiters))
            && (forall x :: x in q'.waiters ==> x in q.waiters)
            && (forall x :: x in q.waiters && x !in q'.waiters ==> got == Some(x) || x.session in seen)
    ensures match Enqueue(q, t, seen).1
            case None => Enqueue(q, t, seen).0 == Queue(q.tasks + [t], [])
            case Some(w) => w in q.waiters && w.session !in seen && Enqueue(q, t, seen).0.tasks == q.tasks
                            && forall x :: x in Enqueue(q, t, seen).0.waiters ==> w.ticket < x.ticket
  {
    var ws := q.waiters;
    var k := SkipIsSuffix(ws, seen);
    var live := ws[k..];
    assert ws == ws[..k] + live;
    forall i, j | 0 <= i < j < |live| ensures live[i].ticket < live[j].ticket {
      assert Tickets(ws)[k + i] < Tickets(ws)[k + j];
    }
    if live != [] {
      assert live == [live[0]] + live[1..];
      TailIncreasing(live);
    }
  }

  // ----- The class

  /** What became of a task handed to `add_task`. */
  datatype Added = Dropped | Stored | Served(session: nat)

  class TaskMessageQueue {
    var tasks: seq<TaskMessage>
    var waiters: seq<Waiter>
    var shutdown: bool
    /** `result_` of each suspended awaiter, by session. */
    var results: map<nat, TaskMessage>

    ghost function Value(): Queue
      reads this
    {
      Queue(tasks, waiters)
    }

    constructor ()
      ensures Value() == Queue([], []) && !shutdown && results == map[]
    {
      tasks, waiters, shutdown, results := [], [], false, map[];
    }

    /**
     * `add_task`. `seen` holds the sessions whose token reads as cancelled
     * during the call; a served session's coroutine is to be run afterwards.
     */
    method AddTask(t: TaskMessage, seen: set<nat>) returns (r: Added)
      modifies this
      ensures shutdown == old(shutdown)
      ensures old(shutdown) ==> r == Dropped && Value() == old(Value()) && results == old(results)
      ensures !old(shutdown) ==>
                && Value() == Enqueue(old(Value()), t, seen).0
                && match Enqueue(old(Value()), t, seen).1
                   case None => r == Stored && results == old(results)
                   case Some(w) => r == Served(w.session) && results == old(results)[w.session := t]
    {
      if shutdown {
        return Dropped;
      }
      while waiters != []
        invariant SkipCancelled(waiters, seen) == SkipCancelled(old(waiters), seen)
        invariant tasks == old(tasks) && results == old(results) && shutdown == old(shutdown)
        decreases |waiters|
      {
        var front := waiters[0];
        waiters := waiters[1..];
        if front.session in seen {
          continue;
        }
        results := results[front.session := t];
        return Served(front.session);
      }
      tasks := tasks + [t];
      return Stored;
    }

    /** The locked part of `try_get_task_immediately` and of `await_suspend`. */
    method TakeFront() returns (t: Option<TaskMessage>)
      modifies this`tasks
      ensures old(tasks) == [] ==> t == None && tasks == []
      ensures old(tasks) != [] ==> t.Some? && [t.value] + tasks == old(tasks)
    {
      if tasks == [] {
        return None;
      }
      t := Some(tasks[0]);
      tasks := tasks[1..];
    }

    method DrainCancelled(seen: set<nat>)
      modifies this`waiters
      ensures waiters == Live(old(waiters), seen)
    {
      var remaining: seq<Waiter> := [];
      while waiters != []
        invariant remaining + Live(waiters, seen) == Live(old(waiters), seen)
        decreases |waiters|
      {
        var w := waiters[0];
        waiters := waiters[1..];
        if w.session in seen {
          continue;
        }
        remaining := remaining + [w];
      }
      waiters := remaining;
    }

    method CancelAndResumeWaiter(session: nat) returns (resume: Option<nat>)
      modifies this`waiters, this`results
      ensures waiters == Without(old(waiters), session)
      ensures resume == (if First(old(waiters), session).Some? then Some(session) else None)
      ensures results == (if resume.Some? then old(results)[session := Blank] else old(results))
    {
      var remaining: seq<Waiter> := [];
      resume := None;
      while waiters != []
        invariant resume.None? ==> results == old(results)
                                   && remaining + Without(waiters, session) == Without(old(waiters), session)
                                   && First(waiters, session) == First(old(waiters), session)
        invariant resume.Some? ==> resume == Some(session) && First(old(waiters), session).Some?
                                   && results == old(results)[session := Blank]
                                   && remaining + waiters == Without(old(waiters), session)
        decreases |waiters|
      {
        var w := waiters[0];
        ghost var rest := waiters[1..];
        assert remaining + waiters == (remaining + [w]) + rest;
        assert w.session != session ==> remaining + Without(waiters, session) == (remaining + [w]) + Without(rest, session);
        waiters := waiters[1..];
        if w.session == session && resume == None {
          results := results[session := Blank];
          resume := Some(w.session);
        } else {
          remaining := remaining + [w];
        }
      }
      waiters := remaining;
    }

    /** `shutdown` up to the swap; the winner of the exchange gets the waiters. */
    method Shutdown() returns (toResume: seq<Waiter>)
      modifies this`shutdown, this`waiters
      ensures shutdown
      ensures old(shutdown) ==> toResume == [] && waiters == old(waiters)
      ensures !old(shutdown) ==> toResume == old(waiters) && waiters == []
    {
      if shutdown {
        return [];
      }
      shutdown := true;
      toResume := waiters;
      waiters := [];
    }
  }
}
