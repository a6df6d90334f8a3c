/** The DHT provider-query scheduler as values: the scheduler's own state together with what
    happened to every request. Kademlia hands out fresh query ids and delivers arbitrary events. */
module ProviderModel {

  type Peer = nat
  type Key = nat

  const OUTSTANDING_LIMIT: nat := 2048

  /** A request: its response channel and how many providers the caller asked for. */
  datatype Request = Request(id: nat, limit: nat)

  datatype Query = Query(key: Key, requests: seq<Request>)

  datatype Running = Running(queryId: nat, found: set<Peer>, requests: seq<Request>)

  /** What the caller asked for when the request was accepted. */
  datatype Asked = Asked(key: Key, limit: nat)

  /** `outstanding`, `current` and `max` are the scheduler's fields. `closed` are the response channels
      whose receiver is gone. `started` is the number of query ids Kademlia handed out and `finished`
      the queries it was told to stop. The rest records, per request, what was asked, the provider
      sets sent, whether Kademlia ended its query, and whether it was told of a timeout. */
  datatype World = World(outstanding: seq<Query>, current: map<Key, Running>, max: nat,
                         closed: set<nat>, started: nat, finished: set<nat>,
                         asked: map<nat, Asked>, sent: map<nat, seq<set<Peer>>>,
                         ended: set<nat>, timedOut: set<nat>)

  function NewWorld(max: nat): World {
    World([], map[], max, {}, 0, {}, map[], map[], {}, {})
  }

  function Ids(requests: seq<Request>): set<nat> {
    set r | r in requests :: r.id
  }

  /** `Vec::retain` of the requests whose channel is open. */
  function Open(requests: seq<Request>, closed: set<nat>): seq<Request> {
    if requests == [] then []
    else
      var n := |requests| - 1;
      Open(requests[..n], closed) + (if requests[n].id in closed then [] else [requests[n]])
  }

  /** `Vec::retain` of the requests that have not got more than they asked for. */
  function Unfilled(requests: seq<Request>, found: nat): seq<Request> {
    if requests == [] then []
    else
      var n := |requests| - 1;
      Unfilled(requests[..n], found) + (if requests[n].limit >= found then [requests[n]] else [])
  }

  function Send(sent: map<nat, seq<set<Peer>>>, ids: set<nat>, peers: set<Peer>): map<nat, seq<set<Peer>>> {
    map id | id in sent :: if id in ids then sent[id] + [peers] else sent[id]
  }

  function Position(queue: seq<Query>, key: Key): (i: int)
    ensures -1 <= i < |queue|
    ensures i >= 0 ==> queue[i].key == key
    ensures i == -1 ==> forall j | 0 <= j < |queue| :: queue[j].key != key
  {
    if queue == [] then -1
    else
      var n := |queue| - 1;
      var i := Position(queue[..n], key);
      if i == -1 && queue[n].key == key then n else i
  }

  /** Keeps the open requests of every running query and stops the queries left without one. */
  function Sweep(w: World): World {
    var empty := set k | k in w.current && Open(w.current[k].requests, w.closed) == [];
    w.(current := map k | k in w.current && k !in empty ::
         w.current[k].(requests := Open(w.current[k].requests, w.closed)),
       finished := w.finished + set k | k in empty && k in w.current :: w.current[k].queryId)
  }

  /** Moves the oldest outstanding query to the running ones if there is room. */
  function Start(w: World): World {
    if |w.current| < w.max && w.outstanding != [] then
      var q := w.outstanding[0];
      w.(outstanding := w.outstanding[1..],
         current := w.current[q.key := Running(w.started, {}, q.requests)],
         started := w.started + 1)
    else w
  }

  /** `poll` */
  function Poll(w: World): World {
    Sweep(Start(w))
  }

  /** What a late request gets at once: any `limit` of the providers found so far, or all of them. */
  predicate Sample(found: set<Peer>, limit: nat, s: set<Peer>) {
    s <= found && |s| == if limit <= |found| then limit else |found|
  }

  function Accept(w: World, key: Key, r: Request): World {
    w.(asked := w.asked[r.id := Asked(key, r.limit)], sent := w.sent[r.id := []])
  }

  /** `push`; the second component is the returned flag. */
  function Push(w: World, key: Key, r: Request, sample: set<Peer>): (World, bool) {
    if key in w.current then
      var q := w.current[key];
      var a := Accept(w, key, r);
      var b := if sample == {} then a else a.(sent := Send(a.sent, {r.id}, sample));
      (if |q.found| < r.limit && r.id !in w.closed
       then b.(current := b.current[key := q.(requests := q.requests + [r])]) else b, true)
    else
      var i := Position(w.outstanding, key);
      if i >= 0 then
        var q := w.outstanding[i];
        (Accept(w, key, r).(outstanding := w.outstanding[i := q.(requests := q.requests + [r])]), true)
      else if |w.outstanding| < OUTSTANDING_LIMIT then
        (Accept(w, key, r).(outstanding := w.outstanding + [Query(key, [r])]), true)
      else (w, false)
  }

  function Remove(w: World, key: Key): World {
    w.(current := w.current - {key})
  }

  /** Kademlia ends the running query of the key: all its requests are let go. */
  function End(w: World, key: Key): World
    requires key in w.current
  {
    Remove(w, key).(ended := w.ended + Ids(w.current[key].requests))
  }

  /** New providers go to every request of the query. */
  function Deliver(w: World, key: Key, providers: set<Peer>): World
    requires key in w.current
  {
    var q := w.current[key];
    var added := providers - q.found;
    if added == {} then w
    else w.(sent := Send(w.sent, Ids(q.requests), added),
            current := w.current[key := q.(found := q.found + added)])
  }

  /** `handle_get_providers_ok` */
  function HandleOk(w: World, id: nat, isLast: bool, key: Key, providers: set<Peer>): World {
    if key !in w.current || w.current[key].queryId != id then w
    else
      var q := w.current[key];
      var open := Open(q.requests, w.closed);
      if open == [] then Remove(w, key).(finished := w.finished + {id})
      else
        var d := Deliver(w.(current := w.current[key := q.(requests := open)]), key, providers);
        if isLast then Poll(End(d, key))
        else
          var left := Unfilled(open, |d.current[key].found|);
          if left == [] then Poll(Remove(d, key).(finished := d.finished + {id}))
          else d.(current := d.current[key := d.current[key].(requests := left)])
  }

  /** `handle_no_additional_records` */
  function HandleNoMore(w: World, id: nat): World {
    var keys := set k | k in w.current && w.current[k].queryId == id;
    if keys == {} then w
    else
      var k := Least(keys);
      Poll(End(w, k))
  }

  /** Any one of the keys; a running query id has exactly one. */
  function Least(keys: set<Key>): (k: Key)
    requires keys != {}
    ensures k in keys && forall o | o in keys :: k <= o
  {
    LeastExists(keys);
    var k :| k in keys && forall o | o in keys :: k <= o;
    k
  }

  lemma LeastExists(keys: set<Key>)
    requires keys != {}
    ensures exists k :: k in keys && forall o | o in keys :: k <= o
  {
    var k :| k in keys;
    if o :| o in keys && o < k {
      var below := set o | o in keys && o < k;
      assert o in below && k !in below;
      LeastExists(below);
      var m :| m in below && forall o | o in below :: m <= o;
      forall o | o in keys ensures m <= o {
        assert o < k ==> o in below;
      }
    }
  }

  /** `handle_get_providers_error` with its only error, a timeout */
  function HandleTimeout(w: World, id: nat, key: Key): World {
    if key !in w.current || w.current[key].queryId != id then w
    else Poll(End(w.(timedOut := w.timedOut + Ids(w.current[key].requests)), key))
  }
}
