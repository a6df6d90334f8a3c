/** The scheduler told by the events of a run: which query each id was for, when it runs, what it has found, what
    every request was sent, and what Kademlia and the callers were told. */
module ProviderHistory {
  import opened ProviderModel
  import opened ProviderRuns
  import opened Switches

  /* ---- poll ---- */

  predicate Starts(w: World) {
    |w.current| < w.max && w.outstanding != []
  }

  /** The running queries with the oldest outstanding one among them, if there is room. */
  function Advanced(w: World): map<Key, Running> {
    if Starts(w) then w.current[w.outstanding[0].key := Running(w.started, {}, w.outstanding[0].requests)]
    else w.current
  }

  /** All requests of the query are cancelled. */
  predicate Abandoned(requests: seq<Request>, closed: set<nat>) {
    forall r | r in requests :: r.id in closed
  }

  /** A query with the id has only cancelled requests. */
  predicate GivenUp(run: map<Key, Running>, closed: set<nat>, n: nat) {
    exists k | k in run :: run[k].queryId == n && Abandoned(run[k].requests, closed)
  }

  lemma OpenNothing(requests: seq<Request>, closed: set<nat>)
    ensures Open(requests, closed) == [] <==> Abandoned(requests, closed)
  {
    OpenIs(requests, closed);
    if Open(requests, closed) != [] {
      assert Open(requests, closed)[0] in Open(requests, closed);
    }
  }

  /** `poll` starts the oldest outstanding query under the next id if there is room, drops the cancelled
      requests of every running query, and ends and finishes the queries that have none left. */
  lemma PollIs(w: World)
    ensures var t, run := Poll(w), Advanced(w);
            && t.outstanding == (if Starts(w) then w.outstanding[1..] else w.outstanding)
            && t.started == (if Starts(w) then w.started + 1 else w.started)
            && (forall k :: k in t.current <==> k in run && !Abandoned(run[k].requests, w.closed))
            && (forall k | k in t.current :: k in run && t.current[k].queryId == run[k].queryId
                  && t.current[k].found == run[k].found && t.current[k].requests == Open(run[k].requests, w.closed))
            && (forall n :: n in t.finished <==> n in w.finished || GivenUp(run, w.closed, n))
            && t == w.(outstanding := t.outstanding, current := t.current, started := t.started, finished := t.finished)
  {
    var run := Advanced(w);
    assert Start(w).current == run;
    forall k | k in run ensures Open(run[k].requests, w.closed) == [] <==> Abandoned(run[k].requests, w.closed) {
      OpenNothing(run[k].requests, w.closed);
    }
  }

  /* ---- What an event does before the closing poll ---- */

  /** The event is a result, an end or a timeout of the query that runs for the key. */
  predicate Concerns(w: World, e: Event, k: Key) {
    && k in w.current
    && match e
       case Result(id, _, key, _) => key == k && id == w.current[k].queryId
       case NoMore(id) => id == w.current[k].queryId
       case Timeout(id, key) => key == k && id == w.current[k].queryId
       case _ => false
  }

  /** Every request is cancelled or has got more than it asked for once the providers are added. */
  predicate Satisfied(q: Running, closed: set<nat>, providers: set<Peer>) {
    forall r | r in q.requests :: r.id in closed || r.limit < |q.found + providers|
  }

  /** The event ends the query of the key. */
  predicate EndsQuery(w: World, e: Event, k: Key) {
    Concerns(w, e, k) && (e.Result? ==> e.isLast || Satisfied(w.current[k], w.closed, e.providers))
  }

  /** A result finds only cancelled requests; it is the one end that starts no other query. */
  predicate Unheard(w: World, e: Event, k: Key) {
    Concerns(w, e, k) && e.Result? && Abandoned(w.current[k].requests, w.closed)
  }

  /** Kademlia itself ended the query of the key, with someone still listening. */
  predicate EndedByKademlia(w: World, e: Event, k: Key) {
    Concerns(w, e, k) && !Unheard(w, e, k) && (e.Result? ==> e.isLast)
  }

  /** The requests that hear of the event: all of the query, or for a result those not cancelled. */
  ghost predicate Hears(w: World, e: Event, x: nat) {
    exists k :: Concerns(w, e, k) && x in Ids(w.current[k].requests) && (e.Result? ==> x !in w.closed)
  }

  /** The new providers of a result. */
  function News(w: World, e: Event): set<Peer> {
    if e.Result? && Concerns(w, e, e.key) then e.providers - w.current[e.key].found else {}
  }

  /** The running query of the key after the event, if the event does not end it. */
  ghost predicate Continues(w: World, e: Event, k: Key, q: Running)
    requires k in w.current
  {
    if Concerns(w, e, k) && e.Result? then
      && q.queryId == w.current[k].queryId && q.found == w.current[k].found + e.providers
      && (forall r :: r in q.requests <==>
            r in w.current[k].requests && r.id !in w.closed && r.limit >= |w.current[k].found + e.providers|)
    else q == w.current[k]
  }

  /** The queries after the event: those it does not end, with what it adds and whom it drops. */
  ghost predicate QueriesHandled(w: World, e: Event, current: map<Key, Running>) {
    && (forall k :: k in current <==> k in w.current && !EndsQuery(w, e, k))
    && (forall k | k in current :: k in w.current && Continues(w, e, k, current[k]))
  }

  /** What was sent after the event: the news to those who hear of it, nothing to anyone else. */
  ghost predicate NewsSent(w: World, e: Event, sent: map<nat, seq<set<Peer>>>) {
    && sent.Keys == w.sent.Keys
    && (forall x | x in w.sent :: x in sent
          && sent[x] == if News(w, e) != {} && Hears(w, e, x) then w.sent[x] + [News(w, e)] else w.sent[x])
  }

  /** Kademlia is told to stop the queries that end and that it did not end itself. Requests are let go when
      Kademlia ends their query, and told so on a timeout. */
  ghost predicate RecordsHandled(w: World, e: Event, finished: set<nat>, ended: set<nat>, timedOut: set<nat>) {
    && (forall n :: n in finished <==> n in w.finished || ToldToStop(w, e, n))
    && (forall x :: x in ended <==> x in w.ended || (Hears(w, e, x) && exists k :: EndedByKademlia(w, e, k)))
    && (forall x :: x in timedOut <==> x in w.timedOut || (e.Timeout? && Hears(w, e, x)))
  }

  predicate ToldToStop(w: World, e: Event, n: nat) {
    exists k | k in w.current :: EndsQuery(w, e, k) && !EndedByKademlia(w, e, k) && w.current[k].queryId == n
  }

  /** State `v` after a result, an end, a timeout, a poll or a close in state `w`, before the closing poll. */
  ghost predicate Handled(w: World, e: Event, v: World) {
    && QueriesHandled(w, e, v.current)
    && NewsSent(w, e, v.sent)
    && RecordsHandled(w, e, v.finished, v.ended, v.timedOut)
    && (forall x :: x in v.closed <==> x in w.closed || e == Closed(x))
    && v.outstanding == w.outstanding && v.started == w.started && v.max == w.max && v.asked == w.asked
  }

  /** A poll closes the event: it was one, or a query ended that someone still listened to. */
  predicate PollsAfter(w: World, e: Event) {
    e.Polled? || exists k | k in w.current :: EndsQuery(w, e, k) && !Unheard(w, e, k)
  }

  lemma ConcernsOne(w: World, e: Event, k: Key, m: Key)
    requires QueryIdsOnce(w) && Concerns(w, e, k) && Concerns(w, e, m)
    ensures k == m
  {
  }

  lemma HearsIs(w: World, e: Event, k: Key, x: nat)
    requires QueryIdsOnce(w) && Concerns(w, e, k)
    ensures Hears(w, e, x) <==> x in Ids(w.current[k].requests) && (e.Result? ==> x !in w.closed)
  {
    if Hears(w, e, x) {
      var m :| Concerns(w, e, m) && x in Ids(w.current[m].requests) && (e.Result? ==> x !in w.closed);
      ConcernsOne(w, e, k, m);
    }
  }

  lemma OpenIds(requests: seq<Request>, closed: set<nat>)
    ensures forall x :: x in Ids(Open(requests, closed)) <==> x in Ids(requests) && x !in closed
  {
    OpenIs(requests, closed);
    forall x | x in Ids(requests) && x !in closed ensures x in Ids(Open(requests, closed)) {
      var r :| r in requests && r.id == x;
      assert r in Open(requests, closed);
    }
  }

  /** An end or a timeout. */
  lemma EndIs(w: World, e: Event, k: Key)
    requires QueryIdsOnce(w) && Concerns(w, e, k) && (e.NoMore? || e.Timeout?)
    ensures var v := End(if e.Timeout? then w.(timedOut := w.timedOut + Ids(w.current[k].requests)) else w, k);
            Handled(w, e, v)
  {
    forall x ensures Hears(w, e, x) <==> x in Ids(w.current[k].requests) {
      HearsIs(w, e, k, x);
    }
    forall m | EndsQuery(w, e, m) ensures m == k {
      ConcernsOne(w, e, k, m);
    }
    assert EndedByKademlia(w, e, k);
  }

  lemma NoMoreIs(w: World, id: nat, k: Key)
    requires QueryIdsOnce(w) && k in w.current && w.current[k].queryId == id
    ensures HandleNoMore(w, id) == Poll(End(w, k))
  {
    var keys := set m | m in w.current && w.current[m].queryId == id;
    assert k in keys && Least(keys) == k;
  }

  /** The news went to the listening requests of the key and into what its query has found. */
  predicate NewsDelivered(w: World, key: Key, providers: set<Peer>, d: World) {
    && key in w.current
    && var q, open := w.current[key], Open(w.current[key].requests, w.closed);
       && d.current == w.current[key := Running(q.queryId, q.found + providers, open)]
       && d.sent.Keys == w.sent.Keys
       && (forall x | x in w.sent :: x in d.sent
             && d.sent[x] == if providers - q.found != {} && x in Ids(open) then w.sent[x] + [providers - q.found]
                             else w.sent[x])
       && d == w.(current := d.current, sent := d.sent)
  }

  lemma DeliveredIs(w: World, key: Key, providers: set<Peer>)
    requires key in w.current
    ensures NewsDelivered(w, key, providers, Delivered(w, key, providers))
  {
    var q := w.current[key];
    assert q.found + (providers - q.found) == q.found + providers;
    if providers - q.found == {} {
      assert q.found + providers == q.found;
    }
  }

  lemma UnfilledOpen(q: Running, closed: set<nat>, providers: set<Peer>)
    ensures var left := Unfilled(Open(q.requests, closed), |q.found + providers|);
            && (forall r :: r in left <==> r in q.requests && r.id !in closed && r.limit >= |q.found + providers|)
            && (left == [] <==> Satisfied(q, closed, providers))
  {
    OpenIs(q.requests, closed);
    UnfilledIs(Open(q.requests, closed), |q.found + providers|);
    var left := Unfilled(Open(q.requests, closed), |q.found + providers|);
    if left != [] {
      assert left[0] in left;
    }
  }

  /** A result that someone listens to, up to the closing poll. */
  function ResultBeforePoll(w: World, id: nat, isLast: bool, key: Key, providers: set<Peer>): World
    requires key in w.current
  {
    var d := Delivered(w, key, providers);
    if isLast then End(d, key)
    else
      var left := Unfilled(d.current[key].requests, |d.current[key].found|);
      if left == [] then Remove(d, key).(finished := d.finished + {id})
      else d.(current := d.current[key := d.current[key].(requests := left)])
  }

  lemma ResultSteps(w: World, id: nat, isLast: bool, key: Key, providers: set<Peer>)
    requires key in w.current && w.current[key].queryId == id && !Abandoned(w.current[key].requests, w.closed)
    ensures var v := ResultBeforePoll(w, id, isLast, key, providers);
            HandleOk(w, id, isLast, key, providers)
            == if isLast || Satisfied(w.current[key], w.closed, providers) then Poll(v) else v
  {
    OpenNothing(w.current[key].requests, w.closed);
    DeliveredIs(w, key, providers);
    UnfilledOpen(w.current[key], w.closed, providers);
  }

  /** A result of a running query that someone listens to. */
  predicate Listened(w: World, e: Event) {
    && QueryIdsOnce(w) && e.Result? && Concerns(w, e, e.key)
    && !Abandoned(w.current[e.key].requests, w.closed)
  }

  lemma ResultQueries(w: World, e: Event)
    requires Listened(w, e)
    ensures QueriesHandled(w, e, ResultBeforePoll(w, e.id, e.isLast, e.key, e.providers).current)
  {
    DeliveredIs(w, e.key, e.providers);
    UnfilledOpen(w.current[e.key], w.closed, e.providers);
  }

  lemma ListenersHear(w: World, e: Event, x: nat)
    requires Listened(w, e)
    ensures Hears(w, e, x) <==> x in Ids(Open(w.current[e.key].requests, w.closed))
  {
    HearsIs(w, e, e.key, x);
    OpenIds(w.current[e.key].requests, w.closed);
  }

  lemma ResultSent(w: World, e: Event)
    requires Listened(w, e)
    ensures NewsSent(w, e, ResultBeforePoll(w, e.id, e.isLast, e.key, e.providers).sent)
  {
    var d := Delivered(w, e.key, e.providers);
    DeliveredIs(w, e.key, e.providers);
    forall x | x in w.sent
      ensures x in d.sent
      ensures d.sent[x] == if News(w, e) != {} && Hears(w, e, x) then w.sent[x] + [News(w, e)] else w.sent[x]
    {
      ListenersHear(w, e, x);
    }
  }

  lemma ResultRecordsAre(w: World, e: Event)
    requires Listened(w, e)
    ensures var v := ResultBeforePoll(w, e.id, e.isLast, e.key, e.providers);
            && v.timedOut == w.timedOut
            && v.ended == (if e.isLast then w.ended + Ids(Open(w.current[e.key].requests, w.closed)) else w.ended)
            && v.finished == (if !e.isLast && Satisfied(w.current[e.key], w.closed, e.providers)
                              then w.finished + {e.id} else w.finished)
  {
    DeliveredIs(w, e.key, e.providers);
    UnfilledOpen(w.current[e.key], w.closed, e.providers);
  }

  lemma StopIs(w: World, e: Event, n: nat)
    requires Listened(w, e)
    ensures ToldToStop(w, e, n) <==> n == e.id && !e.isLast && Satisfied(w.current[e.key], w.closed, e.providers)
  {
    if n == e.id && !e.isLast && Satisfied(w.current[e.key], w.closed, e.providers) {
      assert EndsQuery(w, e, e.key);
    }
  }

  lemma ResultRecords(w: World, e: Event)
    requires Listened(w, e)
    ensures var v := ResultBeforePoll(w, e.id, e.isLast, e.key, e.providers);
            RecordsHandled(w, e, v.finished, v.ended, v.timedOut)
  {
    ResultRecordsAre(w, e);
    forall x ensures Hears(w, e, x) <==> x in Ids(Open(w.current[e.key].requests, w.closed)) {
      ListenersHear(w, e, x);
    }
    forall n ensures ToldToStop(w, e, n) <==>
                     n == e.id && !e.isLast && Satisfied(w.current[e.key], w.closed, e.providers) {
      StopIs(w, e, n);
    }
    assert EndedByKademlia(w, e, e.key) <==> e.isLast;
    assert (exists k :: EndedByKademlia(w, e, k)) <==> e.isLast;
  }

  lemma ResultHandled(w: World, e: Event)
    requires Listened(w, e)
    ensures Handled(w, e, ResultBeforePoll(w, e.id, e.isLast, e.key, e.providers))
  {
    ResultQueries(w, e);
    ResultSent(w, e);
    ResultRecords(w, e);
    DeliveredIs(w, e.key, e.providers);
  }

  lemma UnheardHandled(w: World, e: Event)
    requires QueryIdsOnce(w) && e.Result? && Concerns(w, e, e.key) && Abandoned(w.current[e.key].requests, w.closed)
    ensures Handled(w, e, Remove(w, e.key).(finished := w.finished + {e.id}))
  {
    forall x ensures !Hears(w, e, x) {
      HearsIs(w, e, e.key, x);
    }
    assert EndsQuery(w, e, e.key) && !EndedByKademlia(w, e, e.key);
  }

  lemma NothingConcerned(w: World, e: Event)
    requires forall k :: !Concerns(w, e, k)
    ensures e.Closed? ==> Handled(w, e, w.(closed := w.closed + {e.channel}))
    ensures !e.Closed? ==> Handled(w, e, w)
  {
    assert News(w, e) == {};
  }

  /** Every event but a push, exactly: what it does to queries, requests and records, and then the poll that
      closes it when a query ended that someone listened to. */
  lemma NextIs(w: World, e: Event) returns (v: World)
    requires QueryIdsOnce(w) && !e.Pushed?
    ensures Handled(w, e, v)
    ensures Next(w, e) == if PollsAfter(w, e) then Poll(v) else v
  {
    if k :| Concerns(w, e, k) {
      forall m | Concerns(w, e, m) ensures m == k {
        ConcernsOne(w, e, k, m);
      }
      match e
      case Result(id, isLast, key, providers) =>
        if Abandoned(w.current[key].requests, w.closed) {
          UnheardHandled(w, e);
          OpenNothing(w.current[key].requests, w.closed);
          v := Next(w, e);
        } else {
          ResultHandled(w, e);
          ResultSteps(w, id, isLast, key, providers);
          v := ResultBeforePoll(w, id, isLast, key, providers);
          assert PollsAfter(w, e) <==> EndsQuery(w, e, key);
        }
      case NoMore(id) =>
        EndIs(w, e, k);
        NoMoreIs(w, id, k);
        v := End(w, k);
        assert EndsQuery(w, e, k);
      case Timeout(id, key) =>
        EndIs(w, e, k);
        v := End(w.(timedOut := w.timedOut + Ids(w.current[k].requests)), k);
        assert EndsQuery(w, e, k);
    } else {
      NothingConcerned(w, e);
      v := if e.Closed? then w.(closed := w.closed + {e.channel}) else w;
      if e.NoMore? {
        StaleIgnored(w, e.id, false, 0, {});
      }
    }
  }

  /* ---- push ---- */

  predicate Queued(queue: seq<Query>, key: Key) {
    exists i | 0 <= i < |queue| :: queue[i].key == key
  }

  predicate Accepts(w: World, key: Key) {
    key in w.current || Queued(w.outstanding, key) || |w.outstanding| < OUTSTANDING_LIMIT
  }

  /** The queue after a request for the key: it joins the query of its key or queues a new one at the end. */
  predicate Enqueued(queue: seq<Query>, key: Key, r: Request, after: seq<Query>) {
    if Queued(queue, key)
    then |after| == |queue| && forall i | 0 <= i < |queue| ::
           after[i] == Query(queue[i].key, if queue[i].key == key then queue[i].requests + [r] else queue[i].requests)
    else after == queue + [Query(key, [r])]
  }

  /** The running queries after a request for a running key. */
  function JoinedRunning(w: World, key: Key, r: Request): map<Key, Running>
    requires key in w.current
  {
    var q := w.current[key];
    if |q.found| < r.limit && r.id !in w.closed then w.current[key := q.(requests := q.requests + [r])] else w.current
  }

  /** `push` refuses exactly when the key is neither running nor queued and the queue is full, and then changes
      nothing. Otherwise the request is recorded. If its key runs it is sent the sample at once, and joins the
      query if that was not enough and its channel is open; if not it joins the queue. */
  lemma PushIs(w: World, key: Key, r: Request, sample: set<Peer>)
    requires KeysOnce(w) && r.id !in w.asked
    ensures var (t, accepted) := Push(w, key, r, sample);
            && (accepted <==> Accepts(w, key))
            && (!accepted ==> t == w)
            && (accepted ==>
                  && t.asked == w.asked[r.id := Asked(key, r.limit)]
                  && t.sent == w.sent[r.id := if key in w.current && sample != {} then [sample] else []]
                  && (key in w.current ==> t.outstanding == w.outstanding && t.current == JoinedRunning(w, key, r))
                  && (key !in w.current ==> t.current == w.current && Enqueued(w.outstanding, key, r, t.outstanding))
                  && t == w.(asked := t.asked, sent := t.sent, current := t.current, outstanding := t.outstanding))
  {
    if key in w.current {
      SentOnce(w.sent, r.id, sample);
    } else {
      var i := Position(w.outstanding, key);
      if i >= 0 {
        assert Queued(w.outstanding, key);
      }
    }
  }

  /* ---- First in, first out ---- */

  /** The key that the event adds to the queue. */
  function Joins(w: World, e: Event): seq<Key> {
    if e.Pushed? && e.key !in w.current && !Queued(w.outstanding, e.key) && |w.outstanding| < OUTSTANDING_LIMIT
    then [e.key] else []
  }

  /** The keys that were ever queued, in the order of their first requests. */
  function Joined(ws: seq<World>, es: seq<Event>, i: nat): seq<Key>
    requires i <= |es| && |ws| == |es| + 1
  {
    if i == 0 then [] else Joined(ws, es, i - 1) + Joins(ws[i - 1], es[i - 1])
  }

  /** Query ids were given to the keys in their order, and the rest of the order is the queue. */
  predicate InOrder(w: World, keys: seq<Key>) {
    && |keys| == w.started + |w.outstanding|
    && (forall j | 0 <= j < |w.outstanding| :: w.outstanding[j].key == keys[w.started + j])
    && (forall k | k in w.current :: w.current[k].queryId < w.started && keys[w.current[k].queryId] == k)
  }

  lemma PollInOrder(w: World, keys: seq<Key>)
    requires InOrder(w, keys)
    ensures InOrder(Poll(w), keys)
  {
    PollIs(w);
    if Starts(w) {
      assert w.outstanding[0].key == keys[w.started + 0];
      forall j | 0 <= j < |w.outstanding[1..]| ensures w.outstanding[1..][j].key == keys[w.started + 1 + j] {
        assert w.outstanding[1 + j].key == keys[w.started + (1 + j)];
      }
    }
  }

  lemma HandledInOrder(w: World, e: Event, v: World, keys: seq<Key>)
    requires InOrder(w, keys) && Handled(w, e, v)
    ensures InOrder(v, keys)
  {
  }

  lemma PushInOrder(w: World, e: Event, keys: seq<Key>)
    requires KeysOnce(w) && InOrder(w, keys) && e.Pushed? && Allowed(w, e)
    ensures InOrder(Next(w, e), keys + Joins(w, e))
  {
    PushIs(w, e.key, e.request, e.sample);
    assert keys + [] == keys;
  }

  lemma InOrderNext(w: World, e: Event, keys: seq<Key>)
    requires Inv(w) && InOrder(w, keys) && Allowed(w, e)
    ensures InOrder(Next(w, e), keys + Joins(w, e))
  {
    if e.Pushed? {
      PushInOrder(w, e, keys);
    } else {
      var v := NextIs(w, e);
      HandledInOrder(w, e, v, keys);
      PollInOrder(v, keys);
      assert keys + [] == keys;
    }
  }

  /** In every state of every run the `n`th query id was given to the `n`th key that was queued, and the keys
      without an id are the queue, in order: no query overtakes one that was queued before it. */
  lemma {:induction false} FirstInFirstOut(max: nat, ws: seq<World>, es: seq<Event>, i: nat)
    requires Run(ws, es) && i < |ws| && ws[0] == NewWorld(max)
    ensures InOrder(ws[i], Joined(ws, es, i))
  {
    if i > 0 {
      FirstInFirstOut(max, ws, es, i - 1);
      RunKeeps(ws, es, i - 1);
      InOrderNext(ws[i - 1], es[i - 1], Joined(ws, es, i - 1));
    }
  }

  /* ---- When a query runs ---- */

  predicate RunsAs(w: World, k: Key, n: nat) {
    k in w.current && w.current[k].queryId == n
  }

  /** The event lets the query of the key begin under the id: it closes with a poll that finds room, the key is
      first in the queue, and someone still listens. */
  predicate BeginsQuery(w: World, e: Event, k: Key, n: nat) {
    && PollsAfter(w, e) && (e.Polled? ==> |w.current| < w.max)
    && w.outstanding != [] && w.outstanding[0].key == k && n == w.started
    && !Abandoned(w.outstanding[0].requests, w.closed)
  }

  /** The event ends the query, or its closing poll finds nobody listening to it. */
  predicate StopsQuery(w: World, e: Event, k: Key) {
    EndsQuery(w, e, k) || (PollsAfter(w, e) && k in w.current && Abandoned(w.current[k].requests, w.closed))
  }

  lemma RoomAfter(w: World, e: Event, v: World)
    requires QueryIdsOnce(w) && Bounded(w) && Handled(w, e, v) && PollsAfter(w, e)
    ensures Starts(v) <==> w.outstanding != [] && (e.Polled? ==> |w.current| < w.max)
  {
    if e.Polled? {
      assert v.current.Keys == w.current.Keys;
      assert |v.current| == |v.current.Keys| && |w.current| == |w.current.Keys|;
    } else {
      var k :| k in w.current && EndsQuery(w, e, k);
      forall m | EndsQuery(w, e, m) ensures m == k {
        ConcernsOne(w, e, k, m);
      }
      assert v.current.Keys == w.current.Keys - {k};
      assert |v.current| == |v.current.Keys| && |w.current| == |w.current.Keys|;
    }
  }

  /** The query that the event is about is the one that ends before the closing poll. */
  lemma OnlyOne(w: World, e: Event, k: Key)
    requires QueryIdsOnce(w) && PollsAfter(w, e) && Concerns(w, e, k)
    ensures EndsQuery(w, e, k)
  {
    var m :| m in w.current && EndsQuery(w, e, m);
    ConcernsOne(w, e, k, m);
  }

  /** Before the closing poll the remaining queries are what they were. */
  lemma OthersSame(w: World, e: Event, v: World, k: Key)
    requires QueryIdsOnce(w) && Handled(w, e, v) && PollsAfter(w, e) && k in v.current
    ensures k in w.current && v.current[k] == w.current[k] && !Concerns(w, e, k)
  {
    if Concerns(w, e, k) {
      OnlyOne(w, e, k);
    }
  }

  lemma ClosedSame(w: World, e: Event, v: World)
    requires Handled(w, e, v) && PollsAfter(w, e)
    ensures v.closed == w.closed
  {
    assert !e.Closed?;
  }

  lemma RunsAfterPoll(v: World, k: Key, n: nat)
    requires KeysOnce(v)
    ensures RunsAs(Poll(v), k, n) <==>
            || (Starts(v) && v.outstanding[0].key == k && n == v.started && !Abandoned(v.outstanding[0].requests, v.closed))
            || (RunsAs(v, k, n) && !Abandoned(v.current[k].requests, v.closed))
  {
    PollIs(v);
  }

  lemma RunsBeforePoll(w: World, e: Event, v: World, k: Key, n: nat)
    requires QueryIdsOnce(w) && Handled(w, e, v) && PollsAfter(w, e)
    ensures (RunsAs(v, k, n) && !Abandoned(v.current[k].requests, w.closed)) <==>
            (RunsAs(w, k, n) && !StopsQuery(w, e, k))
  {
    if k in v.current {
      OthersSame(w, e, v, k);
    }
  }

  lemma KeysStay(w: World, e: Event, v: World)
    requires KeysOnce(w) && Handled(w, e, v)
    ensures KeysOnce(v)
  {
  }

  lemma PollLife(w: World, e: Event, v: World, k: Key, n: nat)
    requires QueryIdsOnce(w) && Bounded(w) && KeysOnce(w) && Handled(w, e, v) && PollsAfter(w, e)
    ensures RunsAs(Poll(v), k, n) <==> BeginsQuery(w, e, k, n) || (RunsAs(w, k, n) && !StopsQuery(w, e, k))
  {
    KeysStay(w, e, v);
    RunsAfterPoll(v, k, n);
    RoomAfter(w, e, v);
    ClosedSame(w, e, v);
    RunsBeforePoll(w, e, v, k, n);
  }

  /** Exactly how one event changes which queries run. */
  lemma QueryLife(w: World, e: Event, k: Key, n: nat)
    requires Inv(w) && Allowed(w, e)
    ensures RunsAs(Next(w, e), k, n) <==> BeginsQuery(w, e, k, n) || (RunsAs(w, k, n) && !StopsQuery(w, e, k))
  {
    if e.Pushed? {
      PushIs(w, e.key, e.request, e.sample);
    } else {
      var v := NextIs(w, e);
      if PollsAfter(w, e) {
        PollLife(w, e, v, k, n);
      }
    }
  }

  predicate RunsSince(ws: seq<World>, es: seq<Event>, k: Key, n: nat, j: nat, i: nat)
    requires |ws| == |es| + 1 && j < i < |ws|
  {
    BeginsQuery(ws[j], es[j], k, n) && forall l | j < l < i :: !StopsQuery(ws[l], es[l], k)
  }

  lemma RunsBy(runs: seq<bool>, ws: seq<World>, es: seq<Event>, k: Key, n: nat, i: nat)
    requires |runs| == |ws| == |es| + 1 && i < |runs| && !runs[0]
    requires forall j | 0 <= j < |es| ::
               runs[j + 1] <==> BeginsQuery(ws[j], es[j], k, n) || (runs[j] && !StopsQuery(ws[j], es[j], k))
    ensures runs[i] <==> exists j | 0 <= j < i :: RunsSince(ws, es, k, n, j, i)
  {
    var on := seq(|es|, j requires 0 <= j < |es| => BeginsQuery(ws[j], es[j], k, n));
    var off := seq(|es|, j requires 0 <= j < |es| => StopsQuery(ws[j], es[j], k));
    Switched(runs, on, off, i);
    forall j | 0 <= j < i ensures OnSince(on, off, j, i) <==> RunsSince(ws, es, k, n, j, i) {
      SameRuns(ws, es, k, n, on, off, j, i);
    }
  }

  lemma SameRuns(ws: seq<World>, es: seq<Event>, k: Key, n: nat, on: seq<bool>, off: seq<bool>, j: nat, i: nat)
    requires |ws| == |es| + 1 && j < i < |ws| && |on| == |off| == |es|
    requires forall l | 0 <= l < |es| :: on[l] == BeginsQuery(ws[l], es[l], k, n)
    requires forall l | 0 <= l < |es| :: off[l] == StopsQuery(ws[l], es[l], k)
    ensures OnSince(on, off, j, i) <==> RunsSince(ws, es, k, n, j, i)
  {
  }

  lemma LifeStep(ws: seq<World>, es: seq<Event>, k: Key, n: nat, j: nat)
    requires Run(ws, es) && Inv(ws[0]) && j < |es|
    ensures RunsAs(ws[j + 1], k, n) <==>
            BeginsQuery(ws[j], es[j], k, n) || (RunsAs(ws[j], k, n) && !StopsQuery(ws[j], es[j], k))
  {
    RunKeeps(ws, es, j);
    QueryLife(ws[j], es[j], k, n);
  }

  lemma NewIsFine(max: nat)
    ensures Inv(NewWorld(max))
  {
  }

  /** Over whole runs a query runs exactly from the event that lets it begin until the first that stops it. */
  lemma RunsExactly(max: nat, ws: seq<World>, es: seq<Event>, k: Key, n: nat, i: nat)
    requires Run(ws, es) && i < |ws| && ws[0] == NewWorld(max)
    ensures RunsAs(ws[i], k, n) <==> exists j | 0 <= j < i :: RunsSince(ws, es, k, n, j, i)
  {
    NewIsFine(max);
    var runs := seq(|ws|, j requires 0 <= j < |ws| => RunsAs(ws[j], k, n));
    forall j | 0 <= j < |es|
      ensures runs[j + 1] <==> BeginsQuery(ws[j], es[j], k, n) || (runs[j] && !StopsQuery(ws[j], es[j], k))
    {
      LifeStep(ws, es, k, n, j);
    }
    RunsBy(runs, ws, es, k, n, i);
  }

  /* ---- What a query has found ---- */

  /** The providers of the results that came for the query while it ran. */
  function Heard(ws: seq<World>, es: seq<Event>, k: Key, n: nat, i: nat): set<Peer>
    requires i <= |es| && |ws| == |es| + 1
  {
    if i == 0 then {} else Heard(ws, es, k, n, i - 1) + HeardAt(ws[i - 1], es[i - 1], k, n)
  }

  function HeardAt(w: World, e: Event, k: Key, n: nat): set<Peer> {
    if RunsAs(w, k, n) && e.Result? && e.key == k && e.id == n then e.providers else {}
  }

  lemma FoundAfterPoll(v: World, k: Key)
    requires KeysOnce(v) && k in Poll(v).current
    ensures var q := Poll(v).current[k];
            if k in v.current then RunsAs(v, k, q.queryId) && q.found == v.current[k].found
            else q.found == {} && q.queryId == v.started
  {
    PollIs(v);
  }

  /** A query that runs after the event is new and has found nothing, or it ran before and has found what it
      had and what the event brought. */
  lemma FoundNext(w: World, e: Event, k: Key, n: nat)
    requires Inv(w) && Allowed(w, e) && RunsAs(Next(w, e), k, n)
    ensures if RunsAs(w, k, n) then Next(w, e).current[k].found == w.current[k].found + HeardAt(w, e, k, n)
            else Next(w, e).current[k].found == {} && n == w.started
  {
    if e.Pushed? {
      PushIs(w, e.key, e.request, e.sample);
    } else {
      var v := NextIs(w, e);
      if PollsAfter(w, e) {
        FoundPolled(w, e, v, k, n);
      }
    }
  }

  lemma FoundPolled(w: World, e: Event, v: World, k: Key, n: nat)
    requires Inv(w) && Handled(w, e, v) && PollsAfter(w, e) && RunsAs(Poll(v), k, n)
    ensures if RunsAs(w, k, n) then Poll(v).current[k].found == w.current[k].found + HeardAt(w, e, k, n)
            else Poll(v).current[k].found == {} && n == w.started
  {
    KeysStay(w, e, v);
    FoundAfterPoll(v, k);
    if k in v.current {
      OthersSame(w, e, v, k);
    } else if k in w.current {
      assert RunningOk(w, k, w.current[k]);
    }
  }

  lemma {:induction false} HeardNothing(ws: seq<World>, es: seq<Event>, k: Key, n: nat, i: nat)
    requires i <= |es| && |ws| == |es| + 1 && forall j | 0 <= j < i :: !RunsAs(ws[j], k, n)
    ensures Heard(ws, es, k, n, i) == {}
  {
    if i > 0 {
      HeardNothing(ws, es, k, n, i - 1);
    }
  }

  /** Ids are handed out in increasing order, so a new one was never seen. */
  lemma NewId(ws: seq<World>, es: seq<Event>, k: Key, i: nat, j: nat)
    requires Run(ws, es) && Inv(ws[0]) && j <= i < |ws|
    ensures !RunsAs(ws[j], k, ws[i].started)
  {
    RunKeeps(ws, es, j);
    RunNoRevival(ws, es);
    StartedGrows(ws, j, i);
    if k in ws[j].current {
      assert RunningOk(ws[j], k, ws[j].current[k]);
    }
  }

  lemma {:induction false} StartedGrows(ws: seq<World>, j: nat, i: nat)
    requires j <= i < |ws| && forall k | 0 <= k < |ws| - 1 :: NoRevival(ws[k], ws[k + 1])
    ensures ws[j].started <= ws[i].started
    decreases i
  {
    if j < i {
      StartedGrows(ws, j, i - 1);
      assert NoRevival(ws[i - 1], ws[i - 1 + 1]);
    }
  }

  /** In every state of every run what a running query has found is exactly the union of the providers of all
      results that came for it since it began. */
  lemma {:induction false} FoundIsHeard(max: nat, ws: seq<World>, es: seq<Event>, k: Key, i: nat)
    requires Run(ws, es) && i < |ws| && ws[0] == NewWorld(max) && k in ws[i].current
    ensures ws[i].current[k].found == Heard(ws, es, k, ws[i].current[k].queryId, i)
    decreases i
  {
    NewIsFine(max);
    if i > 0 {
      var n := ws[i].current[k].queryId;
      RunKeeps(ws, es, i - 1);
      FoundNext(ws[i - 1], es[i - 1], k, n);
      if RunsAs(ws[i - 1], k, n) {
        FoundIsHeard(max, ws, es, k, i - 1);
      } else {
        forall j | 0 <= j < i ensures !RunsAs(ws[j], k, n) {
          NewId(ws, es, k, i - 1, j);
        }
        HeardNothing(ws, es, k, n, i);
      }
    }
  }

  /** What every event sends: a result its news to the listening requests of its query, a push the sample to
      its own request, and nothing else anything. */
  lemma SentNext(w: World, e: Event, x: nat)
    requires Inv(w) && Allowed(w, e) && x in w.sent
    ensures x in Next(w, e).sent
    ensures Next(w, e).sent[x] == if News(w, e) != {} && Hears(w, e, x) then w.sent[x] + [News(w, e)] else w.sent[x]
  {
    if e.Pushed? {
      PushIs(w, e.key, e.request, e.sample);
      assert x in w.asked;
    } else {
      var v := NextIs(w, e);
      PollIs(v);
    }
  }

  /** Who is told of a timeout: exactly the requests attached to the query that timed out. */
  lemma TimedOutNext(w: World, e: Event, x: nat)
    requires Inv(w) && Allowed(w, e)
    ensures x in Next(w, e).timedOut <==>
            x in w.timedOut || (e.Timeout? && RunsAs(w, e.key, e.id) && x in Ids(w.current[e.key].requests))
  {
    if e.Pushed? {
      PushIs(w, e.key, e.request, e.sample);
    } else {
      var v := NextIs(w, e);
      PollIs(v);
      if e.Timeout? && RunsAs(w, e.key, e.id) {
        HearsIs(w, e, e.key, x);
      }
    }
  }
}
