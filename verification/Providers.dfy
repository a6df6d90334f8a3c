/** The provider-query scheduler with its queue and running set updated in place. */
module Providers {
  import opened ProviderModel
  import opened ProviderRuns

  /** The part of Kademlia the scheduler uses: it hands out query ids it never used before and can
      be told to stop a query. */
  class Kademlia {
    var started: nat
    var finished: set<nat>

    constructor ()
      ensures started == 0 && finished == {}
    {
      started, finished := 0, {};
    }

    method GetProviders(key: Key) returns (id: nat)
      modifies this
      ensures id == old(started) && started == old(started) + 1 && finished == old(finished)
    {
      id := started;
      started := started + 1;
    }

    method Finish(id: nat)
      modifies this
      ensures started == old(started) && finished == old(finished) + {id}
    {
      finished := finished + {id};
    }
  }

  /** A sample of the requested size exists. */
  lemma SampleExists(found: set<Peer>, limit: nat)
    ensures exists s :: Sample(found, limit, s)
  {
    if limit >= |found| {
      assert Sample(found, limit, found);
    } else {
      var p :| p in found;
      SampleExists(found - {p}, limit);
      var s :| Sample(found - {p}, limit, s);
      assert Sample(found, limit, s);
    }
  }

  class Scheduler {
    var outstanding: seq<Query>
    var current: map<Key, Running>
    const max: nat
    // The response channels whose receiver is gone.
    var closed: set<nat>
    ghost var asked: map<nat, Asked>
    ghost var sent: map<nat, seq<set<Peer>>>
    ghost var ended: set<nat>
    ghost var timedOut: set<nat>

    ghost function State(kad: Kademlia): World
      reads this, kad
    {
      World(outstanding, current, max, closed, kad.started, kad.finished, asked, sent, ended, timedOut)
    }

    ghost predicate Valid(kad: Kademlia)
      reads this, kad
    {
      Inv(State(kad))
    }

    constructor (maxRunning: nat)
      ensures outstanding == [] && current == map[] && max == maxRunning && closed == {}
      ensures forall kad: Kademlia | kad.started == 0 && kad.finished == {} :: State(kad) == NewWorld(maxRunning)
    {
      outstanding, current, max, closed := [], map[], maxRunning, {};
      asked, sent, ended, timedOut := map[], map[], {}, {};
    }

    method Push(key: Key, r: Request, kad: Kademlia) returns (accepted: bool, ghost sample: set<Peer>)
      requires Valid(kad) && r.id !in asked
      modifies this
      ensures Valid(kad)
      ensures key in old(current) ==> Sample(old(current)[key].found, r.limit, sample)
      ensures (State(kad), accepted) == ProviderModel.Push(old(State(kad)), key, r, sample)
    {
      ghost var w := State(kad);
      accepted, sample := PushNow(key, r, kad);
      PushKeeps(w, key, r, sample);
    }

    /** The body of `push`. */
    method PushNow(key: Key, r: Request, kad: Kademlia) returns (accepted: bool, ghost sample: set<Peer>)
      modifies this
      ensures key in old(current) ==> Sample(old(current)[key].found, r.limit, sample)
      ensures (State(kad), accepted) == ProviderModel.Push(old(State(kad)), key, r, sample)
    {
      sample := {};
      if key in current {
        var q := current[key];
        SampleExists(q.found, r.limit);
        var providers :| Sample(q.found, r.limit, providers);
        sample := providers;
        asked, sent := asked[r.id := Asked(key, r.limit)], sent[r.id := []];
        if providers != {} {
          sent := Send(sent, {r.id}, providers);
        }
        if |q.found| < r.limit && r.id !in closed {
          current := current[key := q.(requests := q.requests + [r])];
        }
        return true, sample;
      }
      var i := Position(outstanding, key);
      if i >= 0 {
        var q := outstanding[i];
        asked, sent := asked[r.id := Asked(key, r.limit)], sent[r.id := []];
        outstanding := outstanding[i := q.(requests := q.requests + [r])];
        accepted := true;
      } else if |outstanding| < OUTSTANDING_LIMIT {
        asked, sent := asked[r.id := Asked(key, r.limit)], sent[r.id := []];
        outstanding := outstanding + [Query(key, [r])];
        accepted := true;
      } else {
        accepted := false;
      }
    }

    method HandleGetProvidersOk(id: nat, isLast: bool, key: Key, providers: set<Peer>, kad: Kademlia)
      requires Valid(kad)
      modifies this, kad
      ensures Valid(kad)
      ensures State(kad) == HandleOk(old(State(kad)), id, isLast, key, providers)
    {
      HandleOkKeeps(State(kad), id, isLast, key, providers);
      ResultNow(id, isLast, key, providers, kad);
    }

    /** The body of `handle_get_providers_ok`. */
    method ResultNow(id: nat, isLast: bool, key: Key, providers: set<Peer>, kad: Kademlia)
      modifies this, kad
      ensures State(kad) == HandleOk(old(State(kad)), id, isLast, key, providers)
    {
      if key !in current || current[key].queryId != id {
        return;
      }
      var q := current[key];
      q := q.(requests := Open(q.requests, closed));
      if q.requests == [] {
        current := current - {key};
        kad.Finish(id);
        return;
      }
      current := current[key := q];
      var added := providers - q.found;
      if added != {} {
        sent := Send(sent, Ids(q.requests), added);
        q := q.(found := q.found + added);
        current := current[key := q];
      }
      if isLast {
        ended := ended + Ids(q.requests);
        current := current - {key};
        PollNow(kad);
      } else {
        q := q.(requests := Unfilled(q.requests, |q.found|));
        if q.requests == [] {
          current := current - {key};
          kad.Finish(id);
          PollNow(kad);
        } else {
          current := current[key := q];
        }
      }
    }

    method HandleNoAdditionalRecords(id: nat, kad: Kademlia)
      requires Valid(kad)
      modifies this, kad
      ensures Valid(kad)
      ensures State(kad) == HandleNoMore(old(State(kad)), id)
    {
      HandleNoMoreKeeps(State(kad), id);
      NoMoreNow(id, kad);
    }

    /** The body of `handle_no_additional_records`. */
    method NoMoreNow(id: nat, kad: Kademlia)
      requires QueryIdsOnce(State(kad))
      modifies this, kad
      ensures State(kad) == HandleNoMore(old(State(kad)), id)
    {
      var found, key := FindQuery(id);
      ghost var keys := set k | k in current && current[k].queryId == id;
      if found {
        assert key in keys && Least(keys) == key;
        ended := ended + Ids(current[key].requests);
        current := current - {key};
        PollNow(kad);
      } else {
        assert keys == {};
      }
    }

    /** The key whose running query has the id. */
    method FindQuery(id: nat) returns (found: bool, key: Key)
      ensures found ==> key in current && current[key].queryId == id
      ensures !found ==> forall k | k in current :: current[k].queryId != id
    {
      found, key := false, 0;
      var rest := current.Keys;
      while rest != {}
        invariant rest <= current.Keys
        invariant forall k | k in current && current[k].queryId == id :: k in rest
        decreases |rest|
      {
        key :| key in rest;
        if current[key].queryId == id {
          return true, key;
        }
        rest := rest - {key};
      }
    }

    method HandleGetProvidersError(id: nat, key: Key, kad: Kademlia)
      requires Valid(kad)
      modifies this, kad
      ensures Valid(kad)
      ensures State(kad) == HandleTimeout(old(State(kad)), id, key)
    {
      HandleTimeoutKeeps(State(kad), id, key);
      TimeoutNow(id, key, kad);
    }

    /** The body of `handle_get_providers_error`: the query is taken out and put back if it is not
        the one that timed out. */
    method TimeoutNow(id: nat, key: Key, kad: Kademlia)
      modifies this, kad
      ensures State(kad) == HandleTimeout(old(State(kad)), id, key)
    {
      if key !in current {
        return;
      }
      var q := current[key];
      PutBack(current, key);
      current := current - {key};
      if q.queryId != id {
        current := current[key := q];
        return;
      }
      timedOut, ended := timedOut + Ids(q.requests), ended + Ids(q.requests);
      PollNow(kad);
    }

    /** `poll` as the scheduler's owner calls it. */
    method PollQueue(kad: Kademlia)
      requires Valid(kad)
      modifies this, kad
      ensures Valid(kad)
      ensures State(kad) == Poll(old(State(kad)))
    {
      PollKeeps(State(kad));
      PollNow(kad);
    }

    /** The body of `poll`. */
    method PollNow(kad: Kademlia)
      modifies this`outstanding, this`current, kad
      ensures State(kad) == Poll(old(State(kad)))
    {
      if |current| < max && outstanding != [] {
        var q := outstanding[0];
        outstanding := outstanding[1..];
        var id := kad.GetProviders(q.key);
        current := current[q.key := Running(id, {}, q.requests)];
      }
      SweepNow(kad);
    }

    /** Drops closed requests from every running query, then the queries left without one. */
    method SweepNow(kad: Kademlia)
      modifies this`current, kad
      ensures State(kad) == Sweep(old(State(kad)))
    {
      SweepInTwo(State(kad));
      RetainOpen();
      RetainUsed(kad);
    }

    method RetainOpen()
      modifies this`current
      ensures current == Trimmed(old(current), closed)
    {
      ghost var before := current;
      var rest := current.Keys;
      while rest != {}
        invariant rest <= before.Keys && current.Keys == before.Keys
        invariant forall k | k in before && k in rest :: current[k] == before[k]
        invariant forall k | k in before && k !in rest ::
                    current[k] == before[k].(requests := Open(before[k].requests, closed))
        decreases |rest|
      {
        var k :| k in rest;
        current := current[k := current[k].(requests := Open(current[k].requests, closed))];
        rest := rest - {k};
      }
    }

    method RetainUsed(kad: Kademlia)
      modifies this`current, kad
      ensures current == Used(old(current))
      ensures kad.finished == old(kad.finished) + UnusedIds(old(current)) && kad.started == old(kad.started)
    {
      ghost var before, finished := current, kad.finished;
      var rest := current.Keys;
      while rest != {}
        invariant rest <= before.Keys && kad.started == old(kad.started)
        invariant forall k :: k in current <==> k in before && (k in rest || before[k].requests != [])
        invariant forall k | k in current :: current[k] == before[k]
        invariant kad.finished == finished + set k | k in before && k !in rest && before[k].requests == [] :: before[k].queryId
        decreases |rest|
      {
        var k :| k in rest;
        if current[k].requests == [] {
          kad.Finish(current[k].queryId);
          current := current - {k};
        }
        rest := rest - {k};
      }
    }
  }

  lemma PutBack<K, V>(m: map<K, V>, k: K)
    requires k in m
    ensures (m - {k})[k := m[k]] == m
  {
  }

  function Trimmed(current: map<Key, Running>, closed: set<nat>): map<Key, Running> {
    map k | k in current :: current[k].(requests := Open(current[k].requests, closed))
  }

  function Used(current: map<Key, Running>): map<Key, Running> {
    map k | k in current && current[k].requests != [] :: current[k]
  }

  function UnusedIds(current: map<Key, Running>): set<nat> {
    set k | k in current && current[k].requests == [] :: current[k].queryId
  }

  /** The cleanup of `poll` in its two passes. */
  lemma SweepInTwo(w: World)
    ensures var trimmed := Trimmed(w.current, w.closed);
            Sweep(w) == w.(current := Used(trimmed), finished := w.finished + UnusedIds(trimmed))
  {
    var trimmed := Trimmed(w.current, w.closed);
    var empty := set k | k in w.current && Open(w.current[k].requests, w.closed) == [];
    assert (set k | k in empty && k in w.current :: w.current[k].queryId) == UnusedIds(trimmed) by {
      forall id | id in UnusedIds(trimmed)
        ensures id in set k | k in empty && k in w.current :: w.current[k].queryId
      {
        var k :| k in trimmed && trimmed[k].requests == [] && trimmed[k].queryId == id;
        assert k in empty && w.current[k].queryId == id;
      }
      forall id | id in set k | k in empty && k in w.current :: w.current[k].queryId
        ensures id in UnusedIds(trimmed)
      {
        var k :| k in empty && k in w.current && w.current[k].queryId == id;
        assert k in trimmed && trimmed[k].requests == [] && trimmed[k].queryId == id;
      }
    }
    assert Sweep(w).current == Used(trimmed);
  }
}
