/**
 * The `dbConnection` object that `load_db` of src/run-viz.js builds around the SQL worker:
 * a counter of request ids, a table of listeners waiting for the reply to each request and a
 * table of the times at which requests were sent. The worker is abstracted as the sequence of
 * messages posted to it; calling a listener is recorded in a log of calls.
 */
module DbConnection {
  import opened Base

  /** A message posted to the worker. The database buffer of an `open` message is not modelled. */
  datatype Post = Open(id: int) | Exec(id: int, sql: string, params: map<string, string>)

  /** A function waiting for a reply: the `resolve` of the promise returned by one query. */
  datatype Listener = Resolver(query: int)

  /** A message from the worker; `body` stands for everything in `event.data` but the id. */
  datatype Reply = Reply(id: int, body: string)

  /** One call of a listener on a reply. */
  datatype Call = Call(listener: Listener, reply: Reply)

  /** `params || {}`: every falsy `params` (absent, `null`, …) is `None` here. */
  function ParamsOrEmpty(params: Option<map<string, string>>): map<string, string>
  {
    if params.Some? then params.value else map[]
  }

  /** The calls a reply makes on the listeners registered for it, in registration order. */
  function CallsOn(ls: seq<Listener>, reply: Reply): seq<Call>
  {
    seq(|ls|, i requires 0 <= i < |ls| => Call(ls[i], reply))
  }

  /** The calls a reply makes, given the listener table at the time it arrives. */
  function Delivered(table: map<int, seq<Listener>>, reply: Reply): seq<Call>
  {
    if reply.id in table then CallsOn(table[reply.id], reply) else []
  }

  /** The listeners among `ls` that throw, in order: each one is reported and then skipped. */
  function Thrown(ls: seq<Listener>, throwing: set<Listener>): (r: seq<Listener>)
    ensures |r| <= |ls|
    ensures forall l :: l in r ==> l in ls && l in throwing
  {
    if ls == [] then []
    else Thrown(ls[..|ls| - 1], throwing) + (if ls[|ls| - 1] in throwing then [ls[|ls| - 1]] else [])
  }

  /** The errors a reply reports, given the listener table at the time it arrives. */
  function Reported(table: map<int, seq<Listener>>, reply: Reply, throwing: set<Listener>): seq<Listener>
  {
    if reply.id in table then Thrown(table[reply.id], throwing) else []
  }

  /** The posts carry the ids 1, 2, 3, … in the order they were sent. */
  ghost predicate Numbered(posts: seq<Post>)
  {
    forall i :: 0 <= i < |posts| ==> posts[i].id == i + 1
  }

  /** Every id of a numbered history is used once, and later posts carry larger ids. */
  lemma NumberedIncreasing(posts: seq<Post>, i: nat, j: nat)
    requires Numbered(posts) && i < j < |posts|
    ensures posts[i].id < posts[j].id
  {
  }

  /** A reply whose id has been delivered and removed calls nothing more: a repeat is a no-op. */
  lemma RepeatDeliversNothing(table: map<int, seq<Listener>>, reply: Reply, throwing: set<Listener>)
    ensures Delivered(table - {reply.id}, reply) == []
    ensures Reported(table - {reply.id}, reply, throwing) == []
    ensures (table - {reply.id}) - {reply.id} == table - {reply.id}
  {
  }

  /** Every registered listener is called, in order, whether or not some of them throw. */
  lemma DeliveredInOrder(table: map<int, seq<Listener>>, reply: Reply)
    requires reply.id in table
    ensures |Delivered(table, reply)| == |table[reply.id]|
    ensures forall i :: 0 <= i < |table[reply.id]| ==> Delivered(table, reply)[i] == Call(table[reply.id][i], reply)
  {
  }

  lemma ThrownStep(ls: seq<Listener>, i: nat, throwing: set<Listener>)
    requires i < |ls|
    ensures Thrown(ls[..i + 1], throwing) == Thrown(ls[..i], throwing) + (if ls[i] in throwing then [ls[i]] else [])
  {
    assert ls[..i + 1][..i] == ls[..i];
  }

  /**
   * The delivery loop of `onmessage`: call each listener of `ls` on `reply`, in order; one that
   * throws is reported and the loop goes on with the next.
   */
  method CallAll(ls: seq<Listener>, reply: Reply, throwing: set<Listener>, calls: seq<Call>, errors: seq<Listener>)
    returns (made: seq<Call>, failed: seq<Listener>)
    ensures made == calls + CallsOn(ls, reply)
    ensures failed == errors + Thrown(ls, throwing)
  {
    made, failed := calls, errors;
    for i := 0 to |ls|
      invariant made == calls + CallsOn(ls[..i], reply)
      invariant failed == errors + Thrown(ls[..i], throwing)
    {
      made := made + [Call(ls[i], reply)];
      if ls[i] in throwing {
        failed := failed + [ls[i]];
      }
      ThrownStep(ls, i, throwing);
    }
    assert ls[..|ls|] == ls;
  }

  class Connection {
    var nextId: int
    var listeners: map<int, seq<Listener>>
    var queryTimes: map<int, int>
    var outbox: seq<Post>
    var calls: seq<Call>
    var errors: seq<Listener>

    /**
     * The two `open` posts took ids 1 and 2; every later post is a query; the counter is one past
     * the last id used; only queries wait for replies, each with its own resolver alone.
     */
    ghost predicate Valid()
      reads this
    {
      && nextId == |outbox| + 1
      && Numbered(outbox)
      && |outbox| >= 2 && outbox[0].Open? && outbox[1].Open?
      && (forall i :: 2 <= i < |outbox| ==> outbox[i].Exec?)
      && (forall id :: id in listeners ==> 3 <= id < nextId && listeners[id] == [Resolver(id)])
      && (forall id :: id in queryTimes ==> 3 <= id < nextId)
    }

    /** `load_db` once the database is fetched: fresh tables, then the two `open` posts. */
    constructor Load()
      ensures Valid()
      ensures outbox == [Open(1), Open(2)] && nextId == 3
      ensures listeners == map[] && queryTimes == map[] && calls == [] && errors == []
    {
      var next := 1;
      listeners, queryTimes, calls, errors := map[], map[], [], [];
      var posts := [Open(next)];
      next := next + 1;
      posts := posts + [Open(next)];
      next := next + 1;
      outbox, nextId := posts, next;
    }

    /**
     * `query`: take the next id, note the time, register the promise's resolver under the id and
     * post the statement with its parameters.
     */
    method Query(sql: string, params: Option<map<string, string>>, now: int) returns (id: int)
      requires Valid()
      modifies this
      ensures Valid()
      ensures id == old(nextId) && nextId == id + 1
      ensures forall p :: p in old(outbox) ==> p.id < id
      ensures queryTimes == old(queryTimes)[id := now]
      ensures listeners == old(listeners)[id := [Resolver(id)]]
      ensures outbox == old(outbox) + [Exec(id, sql, ParamsOrEmpty(params))]
      ensures calls == old(calls) && errors == old(errors)
    {
      id := nextId;
      nextId := nextId + 1;
      queryTimes := queryTimes[id := now];
      listeners := listeners[id := [Resolver(id)]];
      outbox := outbox + [Exec(id, sql, ParamsOrEmpty(params))];
    }

    /**
     * `onmessage`: forget the send time of the reply's id, then call every listener registered
     * under it, in order, reporting and skipping those in `throwing`, and drop the entry.
     */
    method OnMessage(reply: Reply, throwing: set<Listener>)
      requires Valid()
      modifies this
      ensures Valid()
      ensures queryTimes == old(queryTimes) - {reply.id}
      ensures listeners == old(listeners) - {reply.id}
      ensures calls == old(calls) + Delivered(old(listeners), reply)
      ensures errors == old(errors) + Reported(old(listeners), reply, throwing)
      ensures nextId == old(nextId) && outbox == old(outbox)
    {
      if reply.id in queryTimes {
        queryTimes := queryTimes - {reply.id};
      }
      if reply.id in listeners {
        calls, errors := CallAll(listeners[reply.id], reply, throwing, calls, errors);
        listeners := listeners - {reply.id};
      }
    }
  }

  /**
   * Every id that waits for a reply, or whose time is noted, is that of a query already
   * posted: the `exec` post carrying that id.
   */
  lemma PendingArePosted(c: Connection)
    requires c.Valid()
    ensures forall id :: id in c.listeners ==> 0 <= id - 1 < |c.outbox| && c.outbox[id - 1].Exec? && c.outbox[id - 1].id == id
    ensures forall id :: id in c.queryTimes ==> 0 <= id - 1 < |c.outbox| && c.outbox[id - 1].Exec? && c.outbox[id - 1].id == id
  {
  }

  /** `load_db` followed by the first query: the query gets id 3 and is the third post. */
  method FirstQuery(sql: string, params: Option<map<string, string>>, now: int) returns (c: Connection, id: int)
    ensures id == 3
    ensures c.outbox == [Open(1), Open(2), Exec(3, sql, ParamsOrEmpty(params))]
    ensures c.listeners == map[3 := [Resolver(3)]]
  {
    c := new Connection.Load();
    id := c.Query(sql, params, now);
  }

  /** Two replies with the same id: the second one leaves every table and log as it was. */
  method ReplyTwice(c: Connection, reply: Reply, throwing: set<Listener>)
    requires c.Valid()
    modifies c
    ensures c.Valid()
    ensures c.listeners == old(c.listeners) - {reply.id}
    ensures c.calls == old(c.calls) + Delivered(old(c.listeners), reply)
    ensures c.errors == old(c.errors) + Reported(old(c.listeners), reply, throwing)
    ensures c.queryTimes == old(c.queryTimes) - {reply.id}
    ensures c.nextId == old(c.nextId) && c.outbox == old(c.outbox)
  {
    c.OnMessage(reply, throwing);
    RepeatDeliversNothing(c.listeners, reply, throwing);
    c.OnMessage(reply, throwing);
  }
}
