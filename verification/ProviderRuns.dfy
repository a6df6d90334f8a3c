/** Every run of the provider-query scheduler. */
module ProviderRuns {
  import opened ProviderModel

  /* ---- What was sent to a request ---- */

  function Union(ss: seq<set<Peer>>): set<Peer> {
    if ss == [] then {} else Union(ss[..|ss| - 1]) + ss[|ss| - 1]
  }

  /** The sets are non-empty, pairwise disjoint, and together they are `all`. */
  predicate Splits(ss: seq<set<Peer>>, all: set<Peer>) {
    && (forall i | 0 <= i < |ss| :: ss[i] != {})
    && (forall i, j | 0 <= i < j < |ss| :: ss[i] !! ss[j])
    && Union(ss) == all
  }

  lemma {:induction false} InUnion(ss: seq<set<Peer>>, i: nat)
    requires i < |ss|
    ensures ss[i] <= Union(ss)
  {
    if i < |ss| - 1 {
      InUnion(ss[..|ss| - 1], i);
    }
  }

  lemma SplitsAppend(ss: seq<set<Peer>>, all: set<Peer>, more: set<Peer>)
    requires Splits(ss, all) && more != {} && more !! all
    ensures Splits(ss + [more], all + more)
  {
    forall i | 0 <= i < |ss| ensures ss[i] !! more {
      InUnion(ss, i);
    }
    assert (ss + [more])[..|ss|] == ss;
  }

  /* ---- The invariant ---- */

  predicate Distinct(requests: seq<Request>) {
    forall i, j | 0 <= i < j < |requests| :: requests[i].id != requests[j].id
  }

  /** The requests of a query asked for its key, and each is there once. */
  predicate Owned(w: World, key: Key, requests: seq<Request>) {
    && Distinct(requests)
    && forall r | r in requests :: r.id in w.asked && w.asked[r.id] == Asked(key, r.limit)
  }

  predicate QueryOk(w: World, q: Query) {
    && Owned(w, q.key, q.requests)
    && q.requests != []
    && forall r | r in q.requests :: r.id in w.sent && w.sent[r.id] == []
  }

  predicate RunningOk(w: World, key: Key, q: Running) {
    && Owned(w, key, q.requests)
    && q.queryId < w.started
    && forall r | r in q.requests :: r.id in w.sent && Splits(w.sent[r.id], q.found)
  }

  /** A key is outstanding once or running, not both. */
  predicate KeysApart(outstanding: seq<Query>, current: map<Key, Running>) {
    && (forall i | 0 <= i < |outstanding| :: outstanding[i].key !in current)
    && (forall i, j | 0 <= i < j < |outstanding| :: outstanding[i].key != outstanding[j].key)
  }

  predicate KeysOnce(w: World) {
    KeysApart(w.outstanding, w.current)
  }

  predicate IdsApart(current: map<Key, Running>) {
    forall k, m | k in current && m in current && current[k].queryId == current[m].queryId :: k == m
  }

  predicate QueryIdsOnce(w: World) {
    IdsApart(w.current)
  }

  predicate Bounded(w: World) {
    |w.outstanding| <= OUTSTANDING_LIMIT && |w.current| <= w.max
  }

  predicate Attached(w: World, id: nat)
    requires id in w.asked
  {
    var k := w.asked[id].key;
    k in w.current && id in Ids(w.current[k].requests)
  }

  predicate Waiting(w: World, id: nat)
    requires id in w.asked
  {
    exists i | 0 <= i < |w.outstanding| :: w.outstanding[i].key == w.asked[id].key && id in Ids(w.outstanding[i].requests)
  }

  /** Why the scheduler may no longer hold a request. */
  predicate Released(w: World, id: nat)
    requires id in w.asked && id in w.sent
  {
    id in w.closed || id in w.ended || |Union(w.sent[id])| >= w.asked[id].limit
  }

  predicate Accounted(w: World) {
    forall id | id in w.asked :: id in w.sent && (Waiting(w, id) || Attached(w, id) || Released(w, id))
  }

  /** No attached request has been sent more than it asked for. */
  predicate WithinLimits(w: World) {
    FoundWithin(w.current)
  }

  predicate FoundWithin(current: map<Key, Running>) {
    forall k, r | k in current && r in current[k].requests :: |current[k].found| <= r.limit
  }

  predicate QueriesOk(w: World) {
    && (forall i | 0 <= i < |w.outstanding| :: QueryOk(w, w.outstanding[i]))
    && (forall k | k in w.current :: RunningOk(w, k, w.current[k]))
  }

  predicate Core(w: World) {
    KeysOnce(w) && QueryIdsOnce(w) && Bounded(w) && w.sent.Keys == w.asked.Keys && QueriesOk(w) && Accounted(w)
  }

  predicate Inv(w: World) {
    Core(w) && WithinLimits(w)
  }

  /* ---- Retaining requests ---- */

  lemma {:induction false} OpenIs(requests: seq<Request>, closed: set<nat>)
    ensures forall r :: r in Open(requests, closed) <==> r in requests && r.id !in closed
    ensures Distinct(requests) ==> Distinct(Open(requests, closed))
  {
    if requests != [] {
      var n := |requests| - 1;
      OpenIs(requests[..n], closed);
      assert requests == requests[..n] + [requests[n]];
      DistinctMembers(requests);
    }
  }

  lemma DistinctMembers(requests: seq<Request>)
    requires requests != []
    ensures Distinct(requests) ==> forall r | r in requests[..|requests| - 1] :: r.id != requests[|requests| - 1].id
  {
  }

  lemma {:induction false} UnfilledIs(requests: seq<Request>, found: nat)
    ensures forall r :: r in Unfilled(requests, found) <==> r in requests && r.limit >= found
    ensures Distinct(requests) ==> Distinct(Unfilled(requests, found))
  {
    if requests != [] {
      var n := |requests| - 1;
      UnfilledIs(requests[..n], found);
      assert requests == requests[..n] + [requests[n]];
      DistinctMembers(requests);
    }
  }

  /* ---- The pieces of each operation ---- */

  lemma StartAccounted(w: World)
    requires Core(w)
    ensures Accounted(Start(w))
  {
    var t := Start(w);
    forall id | id in t.asked ensures id in t.sent && (Waiting(t, id) || Attached(t, id) || Released(t, id)) {
      if |w.current| < w.max && Waiting(w, id) {
        var i :| 0 <= i < |w.outstanding| && w.outstanding[i].key == w.asked[id].key && id in Ids(w.outstanding[i].requests);
        if i > 0 {
          assert t.outstanding[i - 1] == w.outstanding[i];
        }
      } else if Attached(w, id) && t != w {
        assert w.outstanding[0].key !in w.current;
      }
    }
  }

  lemma StartQueries(w: World)
    requires Core(w)
    ensures QueriesOk(Start(w))
    ensures WithinLimits(w) ==> WithinLimits(Start(w))
  {
    var t := Start(w);
    if t != w {
      var q := w.outstanding[0];
      assert QueryOk(w, q);
      assert RunningOk(t, q.key, t.current[q.key]);
    }
  }

  lemma StartKeys(w: World)
    requires KeysOnce(w) && Bounded(w)
    ensures KeysOnce(Start(w)) && Bounded(Start(w))
  {
    var t := Start(w);
    if t != w {
      var q := w.outstanding[0];
      assert t.current.Keys == w.current.Keys + {q.key};
      assert |t.current| == |t.current.Keys| && |w.current| == |w.current.Keys|;
    }
  }

  lemma StartQueryIds(w: World)
    requires QueryIdsOnce(w) && QueriesOk(w)
    ensures QueryIdsOnce(Start(w))
  {
    forall k | k in w.current ensures w.current[k].queryId < w.started {
      assert RunningOk(w, k, w.current[k]);
    }
  }

  lemma StartKeeps(w: World)
    requires Core(w)
    ensures Core(Start(w))
    ensures WithinLimits(w) ==> WithinLimits(Start(w))
  {
    StartAccounted(w);
    StartQueries(w);
    StartKeys(w);
    StartQueryIds(w);
  }

  lemma SubsetSmaller<T>(a: set<T>, b: set<T>)
    requires a <= b
    ensures |a| <= |b|
    ensures |a| == |b| ==> a == b
  {
    assert b == a + (b - a);
  }

  lemma SweepKeeps(w: World)
    requires Core(w)
    ensures Core(Sweep(w))
    ensures WithinLimits(w) ==> WithinLimits(Sweep(w))
  {
    SweepQueries(w);
    SweepAccounted(w);
    SubsetSmaller(Sweep(w).current.Keys, w.current.Keys);
  }

  lemma SweepQueries(w: World)
    requires QueriesOk(w)
    ensures QueriesOk(Sweep(w))
    ensures forall k, r | k in Sweep(w).current && r in Sweep(w).current[k].requests :: r in w.current[k].requests
  {
    var t := Sweep(w);
    forall k | k in t.current
      ensures RunningOk(t, k, t.current[k])
      ensures forall r | r in t.current[k].requests :: r in w.current[k].requests
    {
      assert RunningOk(w, k, w.current[k]);
      OpenIs(w.current[k].requests, w.closed);
    }
    forall i | 0 <= i < |t.outstanding| ensures QueryOk(t, t.outstanding[i]) {
      assert QueryOk(w, w.outstanding[i]);
    }
  }

  lemma SweepAccounted(w: World)
    requires Accounted(w)
    ensures Accounted(Sweep(w))
  {
    var t := Sweep(w);
    forall id | id in t.asked ensures id in t.sent && (Waiting(t, id) || Attached(t, id) || Released(t, id)) {
      if Waiting(w, id) {
        assert Waiting(t, id);
      } else if Attached(w, id) && id !in w.closed {
        OpenIs(w.current[w.asked[id].key].requests, w.closed);
      }
    }
  }

  lemma PollKeeps(w: World)
    requires Core(w)
    ensures Core(Poll(w))
    ensures WithinLimits(w) ==> WithinLimits(Poll(w))
  {
    StartKeeps(w);
    SweepKeeps(Start(w));
  }

  /** A query can be dropped once all its requests may be released. */
  lemma RemoveKeeps(w: World, key: Key)
    requires Core(w) && key in w.current
    requires forall r | r in w.current[key].requests :: Released(w, r.id)
    ensures Core(Remove(w, key))
    ensures WithinLimits(w) ==> WithinLimits(Remove(w, key))
  {
  }

  lemma ThinAccounted(w: World, key: Key, kept: seq<Request>)
    requires Core(w) && key in w.current
    requires forall r | r in w.current[key].requests && r !in kept :: Released(w, r.id)
    ensures Accounted(w.(current := w.current[key := w.current[key].(requests := kept)]))
  {
    var t := w.(current := w.current[key := w.current[key].(requests := kept)]);
    forall id | id in t.asked ensures id in t.sent && (Waiting(t, id) || Attached(t, id) || Released(t, id)) {
      if Waiting(w, id) {
        assert Waiting(t, id);
      } else if Attached(w, id) && w.asked[id].key == key {
        var r :| r in w.current[key].requests && r.id == id;
        if r !in kept {
          assert Released(w, id);
        }
      }
    }
  }

  /** The requests of a query can be thinned out to some that stay, if the others may be released. */
  lemma ThinKeeps(w: World, key: Key, kept: seq<Request>)
    requires Core(w) && key in w.current && Distinct(kept)
    requires forall r | r in kept :: r in w.current[key].requests
    requires forall r | r in w.current[key].requests && r !in kept :: Released(w, r.id)
    ensures Core(w.(current := w.current[key := w.current[key].(requests := kept)]))
  {
    ThinAccounted(w, key, kept);
    var t := w.(current := w.current[key := w.current[key].(requests := kept)]);
    assert t.current.Keys == w.current.Keys;
    assert |t.current| == |t.current.Keys| && |w.current| == |w.current.Keys|;
    forall k | k in t.current ensures RunningOk(t, k, t.current[k]) {
      assert RunningOk(w, k, w.current[k]);
    }
    forall i | 0 <= i < |t.outstanding| ensures QueryOk(t, t.outstanding[i]) {
      assert QueryOk(w, w.outstanding[i]);
    }
  }

  lemma EndKeeps(w: World, key: Key)
    requires Core(w) && key in w.current
    ensures Core(End(w, key))
    ensures (forall k, r | k in w.current && k != key && r in w.current[k].requests :: |w.current[k].found| <= r.limit)
            ==> WithinLimits(End(w, key))
  {
    var t := w.(ended := w.ended + Ids(w.current[key].requests));
    EndedKeeps(w, Ids(w.current[key].requests));
    RemoveKeeps(t, key);
  }

  lemma EndedKeeps(w: World, ids: set<nat>)
    requires Core(w)
    ensures Core(w.(ended := w.ended + ids))
  {
    var t := w.(ended := w.ended + ids);
    forall k | k in t.current ensures RunningOk(t, k, t.current[k]) {
      assert RunningOk(w, k, w.current[k]);
    }
    forall i | 0 <= i < |t.outstanding| ensures QueryOk(t, t.outstanding[i]) {
      assert QueryOk(w, w.outstanding[i]);
    }
    forall id | id in t.asked ensures id in t.sent && (Waiting(t, id) || Attached(t, id) || Released(t, id)) {
      if Waiting(w, id) {
        assert Waiting(t, id);
      }
    }
  }

  /** Requests of different queries are different. */
  lemma OwnersDiffer(w: World, k: Key, m: Key, a: seq<Request>, b: seq<Request>)
    requires Owned(w, k, a) && Owned(w, m, b) && k != m
    ensures Ids(a) !! Ids(b)
  {
    forall id | id in Ids(a) ensures id in w.asked && w.asked[id].key == k {
      var r :| r in a && r.id == id;
    }
    forall id | id in Ids(b) ensures id in w.asked && w.asked[id].key == m {
      var r :| r in b && r.id == id;
    }
  }

  /** What was sent only grows, by sets of providers that were not among it. */
  lemma DeliverQueries(w: World, key: Key, providers: set<Peer>)
    requires Core(w) && key in w.current
    ensures QueriesOk(Deliver(w, key, providers))
  {
    var t, q := Deliver(w, key, providers), w.current[key];
    var added := providers - q.found;
    forall k | k in t.current ensures RunningOk(t, k, t.current[k]) {
      assert RunningOk(w, k, w.current[k]) && RunningOk(w, key, q);
      if k == key {
        forall r | r in q.requests ensures added != {} ==> Splits(t.sent[r.id], q.found + added) {
          assert r.id in Ids(q.requests);
          if added != {} {
            SplitsAppend(w.sent[r.id], q.found, added);
          }
        }
      } else {
        OwnersDiffer(w, k, key, w.current[k].requests, q.requests);
        assert forall r | r in w.current[k].requests :: r.id in Ids(w.current[k].requests);
      }
    }
    forall i | 0 <= i < |t.outstanding| ensures QueryOk(t, t.outstanding[i]) {
      assert QueryOk(w, w.outstanding[i]) && RunningOk(w, key, q);
      OwnersDiffer(w, w.outstanding[i].key, key, w.outstanding[i].requests, q.requests);
      assert forall r | r in w.outstanding[i].requests :: r.id in Ids(w.outstanding[i].requests);
    }
  }

  lemma UnionAppend(ss: seq<set<Peer>>, s: set<Peer>)
    ensures Union(ss + [s]) == Union(ss) + s
    ensures |Union(ss + [s])| >= |Union(ss)|
  {
    assert (ss + [s])[..|ss|] == ss;
    SubsetSmaller(Union(ss), Union(ss) + s);
  }

  lemma DeliverAccountedAt(w: World, key: Key, providers: set<Peer>, id: nat)
    requires Core(w) && key in w.current && id in w.asked
    ensures var t := Deliver(w, key, providers);
            id in t.sent && (Waiting(t, id) || Attached(t, id) || Released(t, id))
  {
    var t := Deliver(w, key, providers);
    assert id in w.sent;
    if Waiting(w, id) {
      assert Waiting(t, id);
    } else if Released(w, id) {
      UnionAppend(w.sent[id], providers - w.current[key].found);
    }
  }

  lemma DeliverAccounted(w: World, key: Key, providers: set<Peer>)
    requires Core(w) && key in w.current
    ensures Accounted(Deliver(w, key, providers))
  {
    var t := Deliver(w, key, providers);
    forall id | id in t.asked ensures id in t.sent && (Waiting(t, id) || Attached(t, id) || Released(t, id)) {
      DeliverAccountedAt(w, key, providers, id);
    }
  }

  lemma DeliverKeeps(w: World, key: Key, providers: set<Peer>)
    requires Core(w) && key in w.current
    ensures Core(Deliver(w, key, providers))
    ensures Deliver(w, key, providers).current[key].requests == w.current[key].requests
    ensures forall k | k in w.current && k != key :: Deliver(w, key, providers).current[k] == w.current[k]
  {
    DeliverQueries(w, key, providers);
    DeliverAccounted(w, key, providers);
    DeliverKeys(w, key, providers);
  }

  lemma DeliverKeys(w: World, key: Key, providers: set<Peer>)
    requires KeysOnce(w) && QueryIdsOnce(w) && Bounded(w) && w.sent.Keys == w.asked.Keys && key in w.current
    ensures var t := Deliver(w, key, providers);
            && KeysOnce(t) && QueryIdsOnce(t) && Bounded(t) && t.sent.Keys == t.asked.Keys
            && t.current[key].requests == w.current[key].requests
            && forall k | k in w.current && k != key :: t.current[k] == w.current[k]
  {
    var t := Deliver(w, key, providers);
    assert t.current.Keys == w.current.Keys;
    assert |t.current| == |t.current.Keys| && |w.current| == |w.current.Keys|;
  }

  /** The scheduler does not depend on what Kademlia was told to stop or on timeout messages. */
  lemma RecordsKeep(w: World, finished: set<nat>, timedOut: set<nat>)
    requires Core(w)
    ensures Core(w.(finished := finished, timedOut := timedOut))
    ensures WithinLimits(w) ==> WithinLimits(w.(finished := finished, timedOut := timedOut))
  {
    var t := w.(finished := finished, timedOut := timedOut);
    forall k | k in t.current ensures RunningOk(t, k, t.current[k]) {
      assert RunningOk(w, k, w.current[k]);
    }
    forall i | 0 <= i < |t.outstanding| ensures QueryOk(t, t.outstanding[i]) {
      assert QueryOk(w, w.outstanding[i]);
    }
    forall id | id in t.asked ensures id in t.sent && (Waiting(t, id) || Attached(t, id) || Released(t, id)) {
      if Waiting(w, id) {
        assert Waiting(t, id);
      }
    }
  }

  /* ---- The handlers ---- */

  /** The state in `handle_get_providers_ok` after cancelled requests left and new providers went out. */
  function Delivered(w: World, key: Key, providers: set<Peer>): World
    requires key in w.current
  {
    var q := w.current[key];
    Deliver(w.(current := w.current[key := q.(requests := Open(q.requests, w.closed))]), key, providers)
  }

  lemma OpenKeeps(w: World, key: Key)
    requires Inv(w) && key in w.current
    ensures var q := w.current[key];
            Inv(w.(current := w.current[key := q.(requests := Open(q.requests, w.closed))]))
  {
    var q := w.current[key];
    OpenIs(q.requests, w.closed);
    assert RunningOk(w, key, q);
    ThinKeeps(w, key, Open(q.requests, w.closed));
  }

  lemma DeliveredKeeps(w: World, key: Key, providers: set<Peer>)
    requires Inv(w) && key in w.current
    ensures var d := Delivered(w, key, providers);
            && Core(d) && key in d.current
            && d.current[key].requests == Open(w.current[key].requests, w.closed)
            && forall k, r | k in d.current && k != key && r in d.current[k].requests :: |d.current[k].found| <= r.limit
  {
    OpenKeeps(w, key);
    var q := w.current[key];
    var v := w.(current := w.current[key := q.(requests := Open(q.requests, w.closed))]);
    DeliverKeeps(v, key, providers);
  }

  /** A request that was sent more than it asked for may be released. */
  lemma OverfilledReleased(w: World, key: Key, r: Request)
    requires Core(w) && key in w.current && r in w.current[key].requests
    requires r.limit < |w.current[key].found|
    ensures Released(w, r.id)
  {
    assert RunningOk(w, key, w.current[key]);
  }

  lemma HandleOkKeeps(w: World, id: nat, isLast: bool, key: Key, providers: set<Peer>)
    requires Inv(w)
    ensures Inv(HandleOk(w, id, isLast, key, providers))
  {
    if key in w.current && w.current[key].queryId == id {
      var q := w.current[key];
      var open := Open(q.requests, w.closed);
      OpenIs(q.requests, w.closed);
      assert RunningOk(w, key, q);
      if open == [] {
        assert forall r | r in q.requests :: r.id in w.closed;
        RemoveKeeps(w, key);
        RecordsKeep(Remove(w, key), w.finished + {id}, w.timedOut);
      } else {
        DeliveredKeeps(w, key, providers);
        var d := Delivered(w, key, providers);
        if isLast {
          EndKeeps(d, key);
          PollKeeps(End(d, key));
        } else {
          HandleOkRetains(d, id, key);
        }
      }
    }
  }

  /** The end of `handle_get_providers_ok` when more results may come. */
  function Retained(d: World, id: nat, key: Key): World
    requires key in d.current
  {
    var left := Unfilled(d.current[key].requests, |d.current[key].found|);
    if left == [] then Poll(Remove(d, key).(finished := d.finished + {id}))
    else d.(current := d.current[key := d.current[key].(requests := left)])
  }

  lemma HandleOkRetains(d: World, id: nat, key: Key)
    requires Core(d) && key in d.current
    requires forall k, r | k in d.current && k != key && r in d.current[k].requests :: |d.current[k].found| <= r.limit
    ensures Inv(Retained(d, id, key))
  {
    var q := d.current[key];
    var left := Unfilled(q.requests, |q.found|);
    UnfilledIs(q.requests, |q.found|);
    assert RunningOk(d, key, q);
    forall r | r in q.requests && r !in left ensures Released(d, r.id) {
      OverfilledReleased(d, key, r);
    }
    if left == [] {
      RemoveKeeps(d, key);
      RecordsKeep(Remove(d, key), d.finished + {id}, d.timedOut);
      PollKeeps(Remove(d, key).(finished := d.finished + {id}));
    } else {
      ThinKeeps(d, key, left);
    }
  }

  lemma HandleNoMoreKeeps(w: World, id: nat)
    requires Inv(w)
    ensures Inv(HandleNoMore(w, id))
  {
    var keys := set k | k in w.current && w.current[k].queryId == id;
    if keys != {} {
      EndKeeps(w, Least(keys));
      PollKeeps(End(w, Least(keys)));
    }
  }

  lemma HandleTimeoutKeeps(w: World, id: nat, key: Key)
    requires Inv(w)
    ensures Inv(HandleTimeout(w, id, key))
  {
    if key in w.current && w.current[key].queryId == id {
      var t := w.(timedOut := w.timedOut + Ids(w.current[key].requests));
      RecordsKeep(w, w.finished, t.timedOut);
      EndKeeps(t, key);
      PollKeeps(End(t, key));
    }
  }

  /* ---- push ---- */

  /** A new request, not yet placed, owes nothing to the others. */
  function Accepted(w: World, key: Key, r: Request, sets: seq<set<Peer>>): World {
    w.(asked := w.asked[r.id := Asked(key, r.limit)], sent := w.sent[r.id := sets])
  }

  /** Every id of the set is still held or was released. */
  predicate AccountedFor(w: World, ids: set<nat>) {
    forall id | id in ids ::
      id in w.asked && id in w.sent && (Waiting(w, id) || Attached(w, id) || Released(w, id))
  }

  lemma AcceptKeys(w: World, key: Key, r: Request, sets: seq<set<Peer>>)
    requires KeysOnce(w) && QueryIdsOnce(w) && Bounded(w) && WithinLimits(w)
    requires w.sent.Keys == w.asked.Keys && r.id !in w.asked
    ensures var a := Accepted(w, key, r, sets);
            && KeysOnce(a) && QueryIdsOnce(a) && Bounded(a) && WithinLimits(a)
            && a.sent.Keys == a.asked.Keys == w.asked.Keys + {r.id}
  {
  }

  lemma AcceptQueries(w: World, key: Key, r: Request, sets: seq<set<Peer>>)
    requires QueriesOk(w) && r.id !in w.asked
    ensures QueriesOk(Accepted(w, key, r, sets))
  {
    var a := Accepted(w, key, r, sets);
    forall k | k in a.current ensures RunningOk(a, k, a.current[k]) {
      assert RunningOk(w, k, w.current[k]);
    }
    forall i | 0 <= i < |a.outstanding| ensures QueryOk(a, a.outstanding[i]) {
      assert QueryOk(w, w.outstanding[i]);
    }
  }

  lemma AcceptAccounted(w: World, key: Key, r: Request, sets: seq<set<Peer>>)
    requires Accounted(w) && r.id !in w.asked
    ensures AccountedFor(Accepted(w, key, r, sets), w.asked.Keys)
  {
    var a := Accepted(w, key, r, sets);
    forall id | id in w.asked ensures id in a.sent && (Waiting(a, id) || Attached(a, id) || Released(a, id)) {
      assert id in w.sent;
      if Waiting(w, id) {
        assert Waiting(a, id);
      }
    }
  }

  /** What a late request has been sent after `push`. */
  function First(sample: set<Peer>): seq<set<Peer>> {
    if sample == {} then [] else [sample]
  }

  lemma FirstSplits(found: set<Peer>, limit: nat, sample: set<Peer>)
    requires Sample(found, limit, sample)
    ensures Union(First(sample)) == sample
    ensures |found| < limit ==> Splits(First(sample), found)
  {
    SubsetSmaller(sample, found);
    if sample != {} {
      assert [sample][..0] == [];
    }
  }

  lemma OwnedAppend(w: World, key: Key, requests: seq<Request>, r: Request)
    requires Owned(w, key, requests) && r.id in w.asked && w.asked[r.id] == Asked(key, r.limit)
    requires r.id !in Ids(requests)
    ensures Owned(w, key, requests + [r])
    ensures Ids(requests + [r]) == Ids(requests) + {r.id}
  {
    assert forall x :: x in requests + [r] <==> x in requests || x == r;
    assert forall i | 0 <= i < |requests| :: requests[i] in requests && requests[i].id in Ids(requests);
    assert r in requests + [r];
    forall id | id in Ids(requests) ensures id in Ids(requests + [r]) {
      var x :| x in requests && x.id == id;
      assert x in requests + [r];
    }
  }

  lemma NotThere(w: World, key: Key, requests: seq<Request>, id: nat)
    requires Owned(w, key, requests) && id !in w.asked
    ensures id !in Ids(requests)
  {
  }

  lemma JoinQueries(a: World, key: Key, r: Request)
    requires QueriesOk(a) && key in a.current && r.id !in Ids(a.current[key].requests)
    requires r.id in a.asked && a.asked[r.id] == Asked(key, r.limit)
    requires r.id in a.sent && Splits(a.sent[r.id], a.current[key].found)
    ensures QueriesOk(Joined(a, key, r))
  {
    var q, t := a.current[key], Joined(a, key, r);
    assert RunningOk(a, key, q);
    OwnedAppend(a, key, q.requests, r);
    forall k | k in t.current ensures RunningOk(t, k, t.current[k]) {
      assert RunningOk(a, k, a.current[k]);
    }
    forall i | 0 <= i < |t.outstanding| ensures QueryOk(t, t.outstanding[i]) {
      assert QueryOk(a, a.outstanding[i]);
    }
  }

  function Joined(a: World, key: Key, r: Request): World
    requires key in a.current
  {
    a.(current := a.current[key := a.current[key].(requests := a.current[key].requests + [r])])
  }

  /** A late request joins the running query of its key. */
  lemma JoinKeeps(w: World, key: Key, r: Request, sample: set<Peer>)
    requires Inv(w) && r.id !in w.asked && key in w.current
    requires Sample(w.current[key].found, r.limit, sample) && |w.current[key].found| < r.limit
    ensures Inv(Joined(Accepted(w, key, r, First(sample)), key, r))
  {
    AcceptKeys(w, key, r, First(sample));
    AcceptAccounted(w, key, r, First(sample));
    JoinAcceptedQueries(w, key, r, sample);
    JoinAccounted(w, Accepted(w, key, r, First(sample)), key, r);
    JoinKeys(Accepted(w, key, r, First(sample)), key, r);
  }

  lemma JoinAcceptedQueries(w: World, key: Key, r: Request, sample: set<Peer>)
    requires QueriesOk(w) && r.id !in w.asked && key in w.current
    requires Sample(w.current[key].found, r.limit, sample) && |w.current[key].found| < r.limit
    ensures QueriesOk(Joined(Accepted(w, key, r, First(sample)), key, r))
  {
    AcceptQueries(w, key, r, First(sample));
    FirstSplits(w.current[key].found, r.limit, sample);
    assert RunningOk(w, key, w.current[key]);
    NotThere(w, key, w.current[key].requests, r.id);
    JoinQueries(Accepted(w, key, r, First(sample)), key, r);
  }

  lemma JoinKeys(a: World, key: Key, r: Request)
    requires KeysOnce(a) && QueryIdsOnce(a) && Bounded(a) && WithinLimits(a) && key in a.current
    requires |a.current[key].found| <= r.limit
    ensures var t := Joined(a, key, r);
            KeysOnce(t) && QueryIdsOnce(t) && Bounded(t) && WithinLimits(t)
  {
    var t := Joined(a, key, r);
    assert t.current.Keys == a.current.Keys;
    assert |t.current| == |t.current.Keys| && |a.current| == |a.current.Keys|;
  }

  lemma JoinAccounted(w: World, a: World, key: Key, r: Request)
    requires key in a.current && r.id in a.asked && a.asked[r.id].key == key && r.id in a.sent
    requires a.asked.Keys == w.asked.Keys + {r.id} && a.sent.Keys == a.asked.Keys
    requires AccountedFor(a, w.asked.Keys)
    ensures Accounted(Joined(a, key, r))
  {
    var q, t := a.current[key], Joined(a, key, r);
    assert forall x | x in q.requests :: x in q.requests + [r];
    assert r in q.requests + [r];
    forall id | id in t.asked ensures id in t.sent && (Waiting(t, id) || Attached(t, id) || Released(t, id)) {
      if id in w.asked {
        if Waiting(a, id) {
          assert Waiting(t, id);
        } else if Attached(a, id) && a.asked[id].key == key {
          var x :| x in q.requests && x.id == id;
          assert x in t.current[key].requests;
        }
      }
    }
  }

  /** A late request that is answered at once and not attached. */
  lemma AnsweredKeeps(w: World, key: Key, r: Request, sample: set<Peer>)
    requires Inv(w) && r.id !in w.asked && key in w.current
    requires Sample(w.current[key].found, r.limit, sample)
    requires |w.current[key].found| >= r.limit || r.id in w.closed
    ensures Inv(Accepted(w, key, r, First(sample)))
  {
    AcceptKeys(w, key, r, First(sample));
    AcceptQueries(w, key, r, First(sample));
    AcceptAccounted(w, key, r, First(sample));
    FirstSplits(w.current[key].found, r.limit, sample);
    var a := Accepted(w, key, r, First(sample));
    assert Released(a, r.id);
  }

  lemma QueueQueries(a: World, queue: seq<Query>, i: nat)
    requires QueriesOk(a) && i < |queue| && |a.outstanding| <= |queue| <= |a.outstanding| + 1
    requires forall j | 0 <= j < |queue| && j != i :: j < |a.outstanding| && queue[j] == a.outstanding[j]
    requires QueryOk(a, queue[i])
    ensures QueriesOk(a.(outstanding := queue))
  {
    var t := a.(outstanding := queue);
    forall j | 0 <= j < |t.outstanding| ensures QueryOk(t, t.outstanding[j]) {
      assert QueryOk(a, queue[j]);
    }
    forall k | k in t.current ensures RunningOk(t, k, t.current[k]) {
      assert RunningOk(a, k, a.current[k]);
    }
  }

  /** The queue with the request added to its `i`th query. */
  function Lengthened(queue: seq<Query>, i: nat, r: Request): seq<Query>
    requires i < |queue|
  {
    queue[i := queue[i].(requests := queue[i].requests + [r])]
  }

  /** A request joins the outstanding query of its key. */
  lemma QueueJoinKeeps(w: World, key: Key, r: Request, i: nat)
    requires Inv(w) && r.id !in w.asked
    requires i < |w.outstanding| && w.outstanding[i].key == key
    ensures Inv(Accepted(w, key, r, []).(outstanding := Lengthened(w.outstanding, i, r)))
  {
    var a, queue := Accepted(w, key, r, []), Lengthened(w.outstanding, i, r);
    AcceptKeys(w, key, r, []);
    AcceptAccounted(w, key, r, []);
    LengthenedQueries(w, key, r, i);
    LengthenedAccounted(w, a, i, r);
    QueueKeys(a, queue);
  }

  lemma LengthenedAccounted(w: World, a: World, i: nat, r: Request)
    requires r.id in a.asked && a.asked.Keys == w.asked.Keys + {r.id} && a.sent.Keys == a.asked.Keys
    requires i < |a.outstanding| && a.outstanding[i].key == a.asked[r.id].key
    requires AccountedFor(a, w.asked.Keys)
    ensures Accounted(a.(outstanding := Lengthened(a.outstanding, i, r)))
  {
    LengthenedIds(a.outstanding[i].requests, r);
    QueueAccounted(w, a, Lengthened(a.outstanding, i, r), i, r);
  }

  lemma LengthenedIds(requests: seq<Request>, r: Request)
    ensures Ids(requests) <= Ids(requests + [r]) && r.id in Ids(requests + [r])
  {
    assert r in requests + [r];
    forall id | id in Ids(requests) ensures id in Ids(requests + [r]) {
      var x :| x in requests && x.id == id;
      assert x in requests + [r];
    }
  }

  lemma LengthenedQueries(w: World, key: Key, r: Request, i: nat)
    requires QueriesOk(w) && r.id !in w.asked
    requires i < |w.outstanding| && w.outstanding[i].key == key
    ensures QueriesOk(Accepted(w, key, r, []).(outstanding := Lengthened(w.outstanding, i, r)))
  {
    var a, q := Accepted(w, key, r, []), w.outstanding[i];
    AcceptQueries(w, key, r, []);
    assert QueryOk(w, q) && QueryOk(a, a.outstanding[i]);
    NotThere(w, key, q.requests, r.id);
    OwnedAppend(a, key, q.requests, r);
    QueueQueries(a, Lengthened(w.outstanding, i, r), i);
  }

  lemma QueueKeys(a: World, queue: seq<Query>)
    requires QueryIdsOnce(a) && |a.current| <= a.max && WithinLimits(a) && |queue| <= OUTSTANDING_LIMIT
    requires forall i | 0 <= i < |queue| :: queue[i].key !in a.current
    requires forall i, j | 0 <= i < j < |queue| :: queue[i].key != queue[j].key
    ensures var t := a.(outstanding := queue);
            KeysOnce(t) && QueryIdsOnce(t) && Bounded(t) && WithinLimits(t)
  {
  }

  /** A longer queue that keeps the requests of the old one. */
  lemma QueueAccounted(w: World, a: World, queue: seq<Query>, i: nat, r: Request)
    requires r.id in a.asked && a.asked.Keys == w.asked.Keys + {r.id} && a.sent.Keys == a.asked.Keys
    requires |a.outstanding| <= |queue| && i < |queue|
    requires forall j | 0 <= j < |a.outstanding| ::
               queue[j].key == a.outstanding[j].key && Ids(a.outstanding[j].requests) <= Ids(queue[j].requests)
    requires queue[i].key == a.asked[r.id].key && r.id in Ids(queue[i].requests)
    requires AccountedFor(a, w.asked.Keys)
    ensures Accounted(a.(outstanding := queue))
  {
    var t := a.(outstanding := queue);
    forall id | id in t.asked ensures id in t.sent && (Waiting(t, id) || Attached(t, id) || Released(t, id)) {
      if id == r.id {
        assert Waiting(t, id);
      } else if Waiting(a, id) {
        var j :| 0 <= j < |a.outstanding| && a.outstanding[j].key == a.asked[id].key && id in Ids(a.outstanding[j].requests);
        assert id in Ids(queue[j].requests);
      }
    }
  }

  /** A request opens a new outstanding query. */
  lemma QueueNewKeeps(w: World, key: Key, r: Request)
    requires Inv(w) && r.id !in w.asked && key !in w.current
    requires forall j | 0 <= j < |w.outstanding| :: w.outstanding[j].key != key
    requires |w.outstanding| < OUTSTANDING_LIMIT
    ensures var a := Accepted(w, key, r, []);
            Inv(a.(outstanding := a.outstanding + [Query(key, [r])]))
  {
    var a, queue := Accepted(w, key, r, []), w.outstanding + [Query(key, [r])];
    AcceptKeys(w, key, r, []);
    AcceptAccounted(w, key, r, []);
    NewQueryQueries(w, key, r);
    LengthenedIds([], r);
    QueueAccounted(w, a, queue, |w.outstanding|, r);
    QueueKeys(a, queue);
  }

  lemma NewQueryQueries(w: World, key: Key, r: Request)
    requires QueriesOk(w) && r.id !in w.asked
    ensures QueriesOk(Accepted(w, key, r, []).(outstanding := w.outstanding + [Query(key, [r])]))
  {
    var a := Accepted(w, key, r, []);
    AcceptQueries(w, key, r, []);
    assert QueryOk(a, Query(key, [r])) by { assert r in [r]; }
    QueueQueries(a, w.outstanding + [Query(key, [r])], |w.outstanding|);
  }

  lemma SentOnce(sent: map<nat, seq<set<Peer>>>, id: nat, sample: set<Peer>)
    ensures Send(sent[id := []], {id}, sample) == sent[id := [sample]]
  {
    assert [] + [sample] == [sample];
  }

  lemma PushKeeps(w: World, key: Key, r: Request, sample: set<Peer>)
    requires Inv(w) && r.id !in w.asked
    requires key in w.current ==> Sample(w.current[key].found, r.limit, sample)
    ensures Inv(Push(w, key, r, sample).0)
  {
    if key in w.current {
      SentOnce(w.sent, r.id, sample);
      if |w.current[key].found| < r.limit && r.id !in w.closed {
        JoinKeeps(w, key, r, sample);
      } else {
        AnsweredKeeps(w, key, r, sample);
      }
    } else {
      var i := Position(w.outstanding, key);
      if i >= 0 {
        QueueJoinKeeps(w, key, r, i);
      } else if |w.outstanding| < OUTSTANDING_LIMIT {
        QueueNewKeeps(w, key, r);
      }
    }
  }

  /* ---- Runs ---- */

  /** `Close` is a caller dropping its receiver; the other events are calls of the scheduler. */
  datatype Event =
    | Pushed(key: Key, request: Request, sample: set<Peer>)
    | Result(id: nat, isLast: bool, key: Key, providers: set<Peer>)
    | NoMore(id: nat)
    | Timeout(id: nat, key: Key)
    | Polled
    | Closed(channel: nat)

  /** Events are arbitrary, except that every call of `push` brings its own response channel. */
  predicate Allowed(w: World, e: Event) {
    e.Pushed? ==>
      && e.request.id !in w.asked
      && (e.key in w.current ==> Sample(w.current[e.key].found, e.request.limit, e.sample))
  }

  function Next(w: World, e: Event): World {
    match e
    case Pushed(key, r, sample) => Push(w, key, r, sample).0
    case Result(id, isLast, key, providers) => HandleOk(w, id, isLast, key, providers)
    case NoMore(id) => HandleNoMore(w, id)
    case Timeout(id, key) => HandleTimeout(w, id, key)
    case Polled => Poll(w)
    case Closed(id) => w.(closed := w.closed + {id})
  }

  predicate Run(ws: seq<World>, es: seq<Event>) {
    |ws| == |es| + 1 && forall i | 0 <= i < |es| :: Allowed(ws[i], es[i]) && ws[i + 1] == Next(ws[i], es[i])
  }

  lemma CloseKeeps(w: World, id: nat)
    requires Inv(w)
    ensures Inv(w.(closed := w.closed + {id}))
  {
    var t := w.(closed := w.closed + {id});
    forall k | k in t.current ensures RunningOk(t, k, t.current[k]) {
      assert RunningOk(w, k, w.current[k]);
    }
    forall i | 0 <= i < |t.outstanding| ensures QueryOk(t, t.outstanding[i]) {
      assert QueryOk(w, w.outstanding[i]);
    }
    forall x | x in t.asked ensures x in t.sent && (Waiting(t, x) || Attached(t, x) || Released(t, x)) {
      if Waiting(w, x) {
        assert Waiting(t, x);
      }
    }
  }

  lemma NextKeeps(w: World, e: Event)
    requires Inv(w) && Allowed(w, e)
    ensures Inv(Next(w, e))
  {
    match e
    case Pushed(key, r, sample) => PushKeeps(w, key, r, sample);
    case Result(id, isLast, key, providers) => HandleOkKeeps(w, id, isLast, key, providers);
    case NoMore(id) => HandleNoMoreKeeps(w, id);
    case Timeout(id, key) => HandleTimeoutKeeps(w, id, key);
    case Polled => PollKeeps(w);
    case Closed(id) => CloseKeeps(w, id);
  }

  lemma {:induction false} RunKeeps(ws: seq<World>, es: seq<Event>, i: nat)
    requires Run(ws, es) && i < |ws| && Inv(ws[0])
    ensures Inv(ws[i])
  {
    if i > 0 {
      RunKeeps(ws, es, i - 1);
      NextKeeps(ws[i - 1], es[i - 1]);
    }
  }

  /** In every state of every run: no key is queued or running twice, the size bounds hold, and each
      attached request has been sent non-empty pairwise disjoint provider sets whose union is exactly
      what its query found, never more than it asked for, whether it joined before or after the start. */
  lemma EveryRun(max: nat, ws: seq<World>, es: seq<Event>, i: nat)
    requires Run(ws, es) && i < |ws| && ws[0] == NewWorld(max)
    ensures var w := ws[i];
            && KeysOnce(w) && Bounded(w) && QueryIdsOnce(w)
            && forall k, r | k in w.current && r in w.current[k].requests ::
                 r.id in w.sent && Splits(w.sent[r.id], w.current[k].found) && |w.current[k].found| <= r.limit
  {
    RunKeeps(ws, es, i);
    var w := ws[i];
    forall k, r | k in w.current && r in w.current[k].requests
      ensures r.id in w.sent && Splits(w.sent[r.id], w.current[k].found) && |w.current[k].found| <= r.limit
    {
      assert RunningOk(w, k, w.current[k]);
    }
  }

  /** The request belongs to no query but that of its own key, and to that one once. */
  predicate InOnePlace(w: World, id: nat)
    requires id in w.asked
  {
    && !(Waiting(w, id) && Attached(w, id))
    && (forall k | k in w.current && id in Ids(w.current[k].requests) ::
          k == w.asked[id].key && Distinct(w.current[k].requests))
    && (forall j | 0 <= j < |w.outstanding| && id in Ids(w.outstanding[j].requests) ::
          w.outstanding[j].key == w.asked[id].key && Distinct(w.outstanding[j].requests))
    && (forall i, j | 0 <= i < j < |w.outstanding| && id in Ids(w.outstanding[i].requests) ::
          id !in Ids(w.outstanding[j].requests))
  }

  lemma OwnedKey(w: World, key: Key, requests: seq<Request>, id: nat)
    requires Owned(w, key, requests) && id in Ids(requests)
    ensures id in w.asked && w.asked[id].key == key
  {
    var r :| r in requests && r.id == id;
  }

  lemma PlacedOnce(w: World, id: nat)
    requires KeysOnce(w) && QueriesOk(w) && id in w.asked
    ensures InOnePlace(w, id)
  {
    forall k | k in w.current && id in Ids(w.current[k].requests)
      ensures k == w.asked[id].key && Distinct(w.current[k].requests)
    {
      assert RunningOk(w, k, w.current[k]);
      OwnedKey(w, k, w.current[k].requests, id);
    }
    forall j | 0 <= j < |w.outstanding| && id in Ids(w.outstanding[j].requests)
      ensures w.outstanding[j].key == w.asked[id].key && Distinct(w.outstanding[j].requests)
    {
      assert QueryOk(w, w.outstanding[j]);
      OwnedKey(w, w.outstanding[j].key, w.outstanding[j].requests, id);
    }
  }

  /** In every state of every run an accepted request is in at most one query, once and with its limit,
      and one that is in none was cancelled, or was sent at least as many providers as it asked for, or
      had its query ended by Kademlia. */
  lemma EveryRequest(max: nat, ws: seq<World>, es: seq<Event>, i: nat, id: nat)
    requires Run(ws, es) && i < |ws| && ws[0] == NewWorld(max)
    requires id in ws[i].asked
    ensures var w := ws[i];
            && id in w.sent
            && InOnePlace(w, id)
            && (forall k, r | k in w.current && r in w.current[k].requests && r.id == id ::
                  r == Request(id, w.asked[id].limit))
            && (forall j, r | 0 <= j < |w.outstanding| && r in w.outstanding[j].requests && r.id == id ::
                  r == Request(id, w.asked[id].limit))
            && (!Waiting(w, id) && !Attached(w, id) ==> Released(w, id))
  {
    RunKeeps(ws, es, i);
    var w := ws[i];
    PlacedOnce(w, id);
    forall k, r | k in w.current && r in w.current[k].requests && r.id == id
      ensures r == Request(id, w.asked[id].limit)
    {
      assert RunningOk(w, k, w.current[k]);
    }
    forall j, r | 0 <= j < |w.outstanding| && r in w.outstanding[j].requests && r.id == id
      ensures r == Request(id, w.asked[id].limit)
    {
      assert QueryOk(w, w.outstanding[j]);
    }
  }

  /* ---- Old query ids ---- */

  predicate Runs(w: World, id: nat) {
    exists k | k in w.current :: w.current[k].queryId == id
  }

  /** A running query of the later state with an old id was running before. */
  ghost predicate NoRevival(w: World, t: World) {
    && w.started <= t.started
    && forall k | k in t.current && t.current[k].queryId < w.started ::
         k in w.current && w.current[k].queryId == t.current[k].queryId
  }

  lemma PollNoRevival(w: World, t: World)
    requires NoRevival(w, t)
    ensures NoRevival(w, Poll(t))
  {
    assert NoRevival(t, Poll(t));
  }

  lemma DeliveredNoRevival(w: World, key: Key, providers: set<Peer>)
    requires key in w.current
    ensures var d := Delivered(w, key, providers);
            && d.started == w.started && d.current.Keys == w.current.Keys
            && forall k | k in d.current :: d.current[k].queryId == w.current[k].queryId
  {
  }

  /** A state with the same query ids, or fewer. */
  lemma FewerNoRevival(w: World, d: World, t: World)
    requires d.started == w.started && d.current.Keys == w.current.Keys
    requires forall k | k in d.current :: d.current[k].queryId == w.current[k].queryId
    requires t.started == d.started && forall k | k in t.current :: k in d.current && t.current[k].queryId == d.current[k].queryId
    ensures NoRevival(w, t)
  {
  }

  lemma OkNoRevival(w: World, id: nat, isLast: bool, key: Key, providers: set<Peer>)
    requires key in w.current && w.current[key].queryId == id && Open(w.current[key].requests, w.closed) != []
    ensures NoRevival(w, HandleOk(w, id, isLast, key, providers))
  {
    var d := Delivered(w, key, providers);
    DeliveredNoRevival(w, key, providers);
    if isLast {
      FewerNoRevival(w, d, End(d, key));
      PollNoRevival(w, End(d, key));
    } else {
      var left := Unfilled(Open(w.current[key].requests, w.closed), |d.current[key].found|);
      if left == [] {
        FewerNoRevival(w, d, Remove(d, key).(finished := d.finished + {id}));
        PollNoRevival(w, Remove(d, key).(finished := d.finished + {id}));
      } else {
        FewerNoRevival(w, d, d.(current := d.current[key := d.current[key].(requests := left)]));
      }
    }
  }

  lemma PushNoRevival(w: World, key: Key, r: Request, sample: set<Peer>)
    ensures NoRevival(w, Push(w, key, r, sample).0)
  {
  }

  lemma NoMoreNoRevival(w: World, id: nat)
    ensures NoRevival(w, HandleNoMore(w, id))
  {
    var keys := set k | k in w.current && w.current[k].queryId == id;
    if keys != {} {
      PollNoRevival(w, End(w, Least(keys)));
    }
  }

  lemma TimeoutNoRevival(w: World, id: nat, key: Key)
    ensures NoRevival(w, HandleTimeout(w, id, key))
  {
    if key in w.current {
      PollNoRevival(w, End(w.(timedOut := w.timedOut + Ids(w.current[key].requests)), key));
    }
  }

  lemma NextNoRevival(w: World, e: Event)
    ensures NoRevival(w, Next(w, e))
  {
    match e
    case Pushed(key, r, sample) => PushNoRevival(w, key, r, sample);
    case Result(id, isLast, key, providers) =>
      if key in w.current && w.current[key].queryId == id && Open(w.current[key].requests, w.closed) != [] {
        OkNoRevival(w, id, isLast, key, providers);
      }
    case NoMore(id) => NoMoreNoRevival(w, id);
    case Timeout(id, key) => TimeoutNoRevival(w, id, key);
    case Polled => PollNoRevival(w, w);
    case Closed(id) =>
  }

  lemma OldStaysOld(w: World, t: World, id: nat)
    requires NoRevival(w, t) && id < w.started && !Runs(w, id)
    ensures id < t.started && !Runs(t, id)
  {
  }

  lemma RunNoRevival(ws: seq<World>, es: seq<Event>)
    requires Run(ws, es)
    ensures forall i | 0 <= i < |es| :: NoRevival(ws[i], ws[i + 1])
  {
    forall i | 0 <= i < |es| ensures NoRevival(ws[i], ws[i + 1]) {
      NextNoRevival(ws[i], es[i]);
    }
  }

  lemma {:induction false} EndedStaysEnded(ws: seq<World>, i: nat, j: nat, id: nat)
    requires i <= j < |ws| && forall k | 0 <= k < |ws| - 1 :: NoRevival(ws[k], ws[k + 1])
    requires id < ws[i].started && !Runs(ws[i], id)
    ensures id < ws[j].started && !Runs(ws[j], id)
    decreases j
  {
    if i < j {
      EndedStaysEnded(ws, i, j - 1, id);
      OldStaysOld(ws[j - 1], ws[j - 1 + 1], id);
    }
  }

  lemma StaleIgnored(w: World, id: nat, isLast: bool, key: Key, providers: set<Peer>)
    requires !Runs(w, id)
    ensures HandleOk(w, id, isLast, key, providers) == w
    ensures HandleNoMore(w, id) == w
    ensures HandleTimeout(w, id, key) == w
  {
    assert (set k | k in w.current && w.current[k].queryId == id) == {};
  }

  /** Once the query with some id no longer runs, results, end markers and timeouts carrying that id
      change nothing, then and in every later state. */
  lemma StaleIds(ws: seq<World>, es: seq<Event>, i: nat, j: nat, e: Event, id: nat)
    requires Run(ws, es) && i <= j < |ws|
    requires id < ws[i].started && !Runs(ws[i], id)
    requires (e.Result? || e.NoMore? || e.Timeout?) && e.id == id
    ensures Next(ws[j], e) == ws[j]
  {
    RunNoRevival(ws, es);
    EndedStaysEnded(ws, i, j, id);
    match e
    case Result(_, isLast, key, providers) => StaleIgnored(ws[j], id, isLast, key, providers);
    case NoMore(_) => StaleIgnored(ws[j], id, false, 0, {});
    case Timeout(_, key) => StaleIgnored(ws[j], id, false, key, {});
  }
}
