/** The rendezvous server's handlers, and its state as a function of the requests it has served. */
module Rendezvous {
  import opened Common

  datatype Endpoint = Endpoint(role: string, name: string, host: string, port: int, lastSeen: int)

  /** Requests that change something, with the clock reading their handler took, if it took one. */
  datatype Event = Register(role: string, name: string, host: string, port: int, time: int)
                 | Unregister(role: string, name: string)
                 | Snapshot(role: string, name: string, json: string, time: int)

  datatype Reply = Ok | BadRequest | NotFound
                 | Found(host: string, port: int, name: string, stale: bool)

  datatype State = State(endpoint: Option<Endpoint>, snapshot: string)

  predicate Names(e: Event, role: string, name: string) { e.role == role && e.name == name }

  function Handle(s: State, e: Event): State {
    match e
    case Register(role, name, host, port, time) => s.(endpoint := Some(Endpoint(role, name, host, port, time)))
    case Unregister(role, name) =>
      if s.endpoint.Some? && s.endpoint.value.role == role && s.endpoint.value.name == name then s.(endpoint := None)
      else s
    case Snapshot(role, name, json, time) =>
      if s.endpoint.Some? && s.endpoint.value.role == role && s.endpoint.value.name == name
      then State(Some(s.endpoint.value.(lastSeen := time)), json)
      else s.(snapshot := json)
  }

  function After(h: seq<Event>, k: nat): State
    requires k <= |h|
  {
    if k == 0 then State(None, "") else Handle(After(h, k - 1), h[k - 1])
  }

  function Answer(s: State, role: string, now: int, ttl: int): Reply {
    if s.endpoint.None? || s.endpoint.value.role != role then NotFound
    else
      var e := s.endpoint.value;
      Found(e.host, e.port, e.name, now - e.lastSeen > ttl)
  }

  lemma {:induction false} AfterPrefix(h: seq<Event>, e: Event, k: nat)
    requires k <= |h|
    ensures After(h + [e], k) == After(h, k)
  {
    if k > 0 { AfterPrefix(h, e, k - 1); }
  }

  lemma {:induction false} AfterOneMore(h: seq<Event>, e: Event)
    ensures After(h + [e], |h| + 1) == Handle(After(h, |h|), e)
  {
    AfterPrefix(h, e, |h|);
  }

  /** The server; a body that does not parse is `None`. `history` is what it has handled. */
  class RendezvousServer {
    const ttl: int
    var endpoint: Option<Endpoint>
    var lastSnapshot: string
    ghost var history: seq<Event>

    ghost predicate Valid()
      reads this
    {
      State(endpoint, lastSnapshot) == After(history, |history|)
    }

    constructor (ttl: int)
      ensures this.ttl == ttl && Valid() && history == []
    {
      this.ttl := ttl;
      endpoint, lastSnapshot, history := None, "", [];
    }

    method HandleRegister(body: Option<(string, string, string, int)>, now: int) returns (r: Reply)
      requires Valid()
      modifies this
      ensures Valid()
      ensures body.None? ==> r == BadRequest && history == old(history)
      ensures body.Some? ==>
                && r == Ok
                && history == old(history) + [Register(body.value.0, body.value.1, body.value.2, body.value.3, now)]
    {
      if body.None? {
        return BadRequest;
      }
      var (role, name, host, port) := body.value;
      AfterOneMore(history, Register(role, name, host, port, now));
      history := history + [Register(role, name, host, port, now)];
      endpoint := Some(Endpoint(role, name, host, port, now));
      return Ok;
    }

    method HandleUnregister(body: Option<(string, string)>) returns (r: Reply)
      requires Valid()
      modifies this
      ensures Valid()
      ensures body.None? ==> r == BadRequest && history == old(history)
      ensures body.Some? ==> r == Ok && history == old(history) + [Unregister(body.value.0, body.value.1)]
    {
      if body.None? {
        return BadRequest;
      }
      var (role, name) := body.value;
      AfterOneMore(history, Unregister(role, name));
      history := history + [Unregister(role, name)];
      if endpoint.Some? && endpoint.value.role == role && endpoint.value.name == name {
        endpoint := None;
      }
      return Ok;
    }

    /** Finds an endpoint exactly when the latest registration stands and has the role asked for. */
    method HandleDiscover(body: Option<string>, now: int) returns (r: Reply)
      requires Valid()
      ensures body.None? ==> r == BadRequest
      ensures body.Some? ==> r == NotFound || r.Found?
      ensures body.Some? ==> (r.Found? <==> exists i :: Stands(history, |history|, i) && history[i].role == body.value)
      ensures body.Some? && SteadyClock(history) ==>
                forall i :: Stands(history, |history|, i) && history[i].role == body.value ==>
                  && r.host == history[i].host && r.port == history[i].port && r.name == history[i].name
                  && (r.stale <==> forall j :: Seen(history, |history|, i, j) ==> now - history[j].time > ttl)
    {
      if body.None? {
        return BadRequest;
      }
      FoundExactly(history, |history|, body.value, now, ttl);
      if endpoint.None? || endpoint.value.role != body.value {
        return NotFound;
      }
      var elapsed := now - endpoint.value.lastSeen;
      var stale := elapsed > ttl;
      r := Found(endpoint.value.host, endpoint.value.port, endpoint.value.name, stale);
      if SteadyClock(history) {
        forall i | Stands(history, |history|, i) && history[i].role == body.value
          ensures r.host == history[i].host && r.port == history[i].port && r.name == history[i].name
          ensures r.stale <==> forall j :: Seen(history, |history|, i, j) ==> now - history[j].time > ttl
        {
          StaleExactly(history, |history|, i, now, ttl);
        }
      }
    }

    method OnSnapshot(role: string, name: string, json: string, now: int)
      requires Valid()
      modifies this
      ensures Valid() && history == old(history) + [Snapshot(role, name, json, now)] && lastSnapshot == json
    {
      AfterOneMore(history, Snapshot(role, name, json, now));
      history := history + [Snapshot(role, name, json, now)];
      lastSnapshot := json;
      if endpoint.Some? && endpoint.value.role == role && endpoint.value.name == name {
        endpoint := Some(endpoint.value.(lastSeen := now));
      }
    }
  }

  // ----- What the history says

  /** `i` is the latest registration among the first `k` events. */
  predicate Latest(h: seq<Event>, k: nat, i: int)
    requires k <= |h|
  {
    0 <= i < k && h[i].Register? && forall j :: i < j < k ==> !h[j].Register?
  }

  /** It has not been followed by an unregister for the same role and name. */
  predicate Stands(h: seq<Event>, k: nat, i: int)
    requires k <= |h|
  {
    Latest(h, k, i) && forall j :: i < j < k && h[j].Unregister? ==> !Names(h[j], h[i].role, h[i].name)
  }

  /** Event `j` shows the endpoint of registration `i` alive: that registration, or a snapshot of it since. */
  predicate Seen(h: seq<Event>, k: nat, i: int, j: int)
    requires k <= |h| && 0 <= i < k && h[i].Register?
  {
    i <= j < k && (j == i || (h[j].Snapshot? && Names(h[j], h[i].role, h[i].name)))
  }

  predicate LastSeen(h: seq<Event>, k: nat, i: int, j: int)
    requires k <= |h| && 0 <= i < k && h[i].Register?
  {
    Seen(h, k, i, j) && forall j' :: j < j' < k ==> !Seen(h, k, i, j')
  }

  /**
   * Snapshots read the clock inside the critical section, so later than all
   * before them; a registration reads it before it takes the lock.
   */
  predicate SteadyClock(h: seq<Event>) {
    forall i, j :: 0 <= i <= j < |h| && !h[i].Unregister? && h[j].Snapshot? ==> h[i].time <= h[j].time
  }

  /** An endpoint is kept exactly for a registration that stands, with the time it was last seen. */
  lemma {:induction false} KeptIsStanding(h: seq<Event>, k: nat) returns (i: int, j: int)
    requires k <= |h| && After(h, k).endpoint.Some?
    ensures Stands(h, k, i) && LastSeen(h, k, i, j)
    ensures After(h, k).endpoint.value == Endpoint(h[i].role, h[i].name, h[i].host, h[i].port, h[j].time)
  {
    var e := h[k - 1];
    if e.Register? {
      i, j := k - 1, k - 1;
    } else {
      i, j := KeptIsStanding(h, k - 1);
      if Seen(h, k, i, k - 1) { j := k - 1; }
      assert forall j' :: j' < k - 1 ==> (Seen(h, k, i, j') <==> Seen(h, k - 1, i, j'));
    }
  }

  lemma {:induction false} StandingIsKept(h: seq<Event>, k: nat, i: int)
    requires k <= |h| && Stands(h, k, i)
    ensures var s := After(h, k).endpoint;
            && s.Some? && s.value.role == h[i].role && s.value.name == h[i].name
            && s.value.host == h[i].host && s.value.port == h[i].port
  {
    if i < k - 1 {
      assert Stands(h, k - 1, i);
      StandingIsKept(h, k - 1, i);
      assert !h[k - 1].Register?;
    }
  }

  lemma {:induction false} OneLatest(h: seq<Event>, k: nat, i: int, j: int)
    requires k <= |h| && Latest(h, k, i) && Latest(h, k, j)
    ensures i == j
  {
  }

  /** Discovery finds an endpoint exactly when the latest registration stands and has the role asked for. */
  lemma {:induction false} FoundExactly(h: seq<Event>, k: nat, role: string, now: int, ttl: int)
    requires k <= |h|
    ensures Answer(After(h, k), role, now, ttl).Found? <==> exists i :: Stands(h, k, i) && h[i].role == role
  {
    if After(h, k).endpoint.Some? {
      var i, j := KeptIsStanding(h, k);
      forall i' | Stands(h, k, i') ensures i' == i { OneLatest(h, k, i, i'); }
    }
    forall i | Stands(h, k, i) && h[i].role == role ensures Answer(After(h, k), role, now, ttl).Found? {
      StandingIsKept(h, k, i);
    }
  }

  /**
   * It answers with that registration's address, and says stale exactly when the
   * endpoint was not seen, by registration or matching snapshot, within the TTL.
   */
  lemma {:induction false} StaleExactly(h: seq<Event>, k: nat, i: int, now: int, ttl: int)
    requires k <= |h| && SteadyClock(h) && Stands(h, k, i)
    ensures var r := Answer(After(h, k), h[i].role, now, ttl);
            && r.Found? && r.host == h[i].host && r.port == h[i].port && r.name == h[i].name
            && (r.stale <==> forall j :: Seen(h, k, i, j) ==> now - h[j].time > ttl)
  {
    StandingIsKept(h, k, i);
    var i', j := KeptIsStanding(h, k);
    OneLatest(h, k, i, i');
    forall j' | Seen(h, k, i, j') ensures h[j'].time <= h[j].time { }
  }

  /** The dashboard shows the latest snapshot of all, whoever sent it. */
  lemma {:induction false} SnapshotIsLatest(h: seq<Event>, k: nat, j: nat)
    requires j < k <= |h| && h[j].Snapshot? && forall j' :: j < j' < k ==> !h[j'].Snapshot?
    ensures After(h, k).snapshot == h[j].json
  {
    if j < k - 1 { SnapshotIsLatest(h, k - 1, j); }
  }
}
