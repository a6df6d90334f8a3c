/** The resolver's recursive traversal: a queue of resolved items with a budget on the number of links. */
module Traversal {
  import opened Cids
  import opened Options

  /** How CIDs become items and items name their links. */
  datatype Loader<!O> = Loader(resolve: Cid -> Option<O>, links: O -> Option<seq<Cid>>)

  datatype Error = BadLinks | LimitExceeded | Unresolved

  datatype Status = Running | Done | Failed(error: Error)

  datatype State<O> = State(queue: seq<O>, counter: nat, out: seq<O>, status: Status)

  /** All of the links resolved in order, if every one resolves. */
  function ResolveAll<O>(g: Loader<O>, links: seq<Cid>): (r: Option<seq<O>>)
    ensures r.Some? ==> |r.value| == |links|
    ensures r.Some? <==> forall i | 0 <= i < |links| :: g.resolve(links[i]).Some?
  {
    if links == [] then Some([])
    else
      var n := |links| - 1;
      var before, last := ResolveAll(g, links[..n]), g.resolve(links[n]);
      assert forall i | 0 <= i < n :: links[..n][i] == links[i];
      if before.Some? && last.Some? then Some(before.value + [last.value]) else None
  }

  predicate Exceeds(counter: nat, limit: Option<nat>) {
    limit.Some? && counter > limit.value
  }

  /** One turn of the loop: the item is yielded after its links are resolved and queued. */
  function Turn<O>(g: Loader<O>, limit: Option<nat>, s: State<O>): State<O> {
    if !s.status.Running? then s
    else if s.queue == [] then s.(status := Done)
    else
      var links := g.links(s.queue[0]);
      if links.None? then s.(status := Failed(BadLinks))
      else if Exceeds(s.counter + |links.value|, limit) then s.(status := Failed(LimitExceeded))
      else
        var kids := ResolveAll(g, links.value);
        if kids.None? then s.(status := Failed(Unresolved))
        else State(s.queue[1..] + kids.value, s.counter + |links.value|, s.out + [s.queue[0]], Running)
  }

  function Turns<O>(g: Loader<O>, limit: Option<nat>, root: O, n: nat): State<O> {
    if n == 0 then State([root], 0, [], Running) else Turn(g, limit, Turns(g, limit, root, n - 1))
  }

  /* ---- Breadth-first order, defined by levels ---- */

  /** The children of an item in the link unfolding; an item whose links cannot all be resolved has none. */
  function Kids<O>(g: Loader<O>, o: O): seq<O> {
    var links := g.links(o);
    if links.None? then []
    else
      var kids := ResolveAll(g, links.value);
      if kids.None? then [] else kids.value
  }

  function Flat<O>(g: Loader<O>, row: seq<O>): seq<O> {
    if row == [] then [] else Flat(g, row[..|row| - 1]) + Kids(g, row[|row| - 1])
  }

  /** The items at the given distance from the root. */
  function Row<O>(g: Loader<O>, root: O, d: nat): seq<O> {
    if d == 0 then [root] else Flat(g, Row(g, root, d - 1))
  }

  /** All rows nearer than `d`, one after the other. */
  function Above<O>(g: Loader<O>, root: O, d: nat): seq<O> {
    if d == 0 then [] else Above(g, root, d - 1) + Row(g, root, d - 1)
  }

  function LinkCount<O>(g: Loader<O>, items: seq<O>): nat {
    if items == [] then 0
    else
      var links := g.links(items[|items| - 1]);
      LinkCount(g, items[..|items| - 1]) + (if links.Some? then |links.value| else 0)
  }

  /* ---- The queue walks the levels ---- */

  /** The state has yielded the rows above `d` and the first `j` items of row `d`. */
  predicate At<O(==)>(g: Loader<O>, root: O, s: State<O>, d: nat, j: nat) {
    var row := Row(g, root, d);
    && j <= |row|
    && s.out == Above(g, root, d) + row[..j]
    && s.queue == row[j..] + Flat(g, row[..j])
    && (s.queue != [] ==> j < |row|)
  }

  /** A turn that goes on moves the first item from the queue to the output and queues its children. */
  lemma TurnMoves<O>(g: Loader<O>, limit: Option<nat>, s: State<O>)
    requires s.status.Running? && Turn(g, limit, s).status.Running?
    ensures s.queue != []
    ensures var t := Turn(g, limit, s);
            && t.out == s.out + [s.queue[0]] && t.queue == s.queue[1..] + Kids(g, s.queue[0])
            && t.counter == s.counter + |Kids(g, s.queue[0])|
  {
  }

  lemma TurnStays<O>(g: Loader<O>, limit: Option<nat>, s: State<O>)
    requires !Turn(g, limit, s).status.Running?
    ensures Turn(g, limit, s).out == s.out && Turn(g, limit, s).queue == s.queue && Turn(g, limit, s).counter == s.counter
  {
  }

  lemma FlatNext<O>(g: Loader<O>, row: seq<O>, j: nat)
    requires j < |row|
    ensures Flat(g, row[..j + 1]) == Flat(g, row[..j]) + Kids(g, row[j])
  {
    assert row[..j + 1][..j] == row[..j];
  }

  lemma ShiftQueue<O>(row: seq<O>, j: nat, flat: seq<O>, kids: seq<O>)
    requires j < |row|
    ensures (row[j..] + flat)[0] == row[j]
    ensures (row[j..] + flat)[1..] + kids == row[j + 1..] + (flat + kids)
  {
  }

  lemma ShiftOut<O>(above: seq<O>, row: seq<O>, j: nat)
    requires j < |row|
    ensures above + row[..j] + [row[j]] == above + row[..j + 1]
  {
  }

  lemma MoveInRow<O>(g: Loader<O>, root: O, s: State<O>, t: State<O>, d: nat, j: nat)
    requires At(g, root, s, d, j) && s.queue != []
    requires t.out == s.out + [s.queue[0]] && t.queue == s.queue[1..] + Kids(g, s.queue[0])
    ensures j < |Row(g, root, d)|
    ensures t.out == Above(g, root, d) + Row(g, root, d)[..j + 1]
    ensures t.queue == Row(g, root, d)[j + 1..] + Flat(g, Row(g, root, d)[..j + 1])
  {
    var row := Row(g, root, d);
    ShiftQueue(row, j, Flat(g, row[..j]), Kids(g, row[j]));
    ShiftOut(Above(g, root, d), row, j);
    FlatNext(g, row, j);
  }

  lemma CutNothing<O>(above: seq<O>, row: seq<O>)
    ensures row[..|row|] == row && row[|row|..] == [] && row[..0] == [] && row[0..] == row
    ensures above + row[..0] == above && row + [] == row && [] + row == row
  {
  }

  lemma RowsNext<O>(g: Loader<O>, root: O, d: nat)
    ensures Row(g, root, d + 1) == Flat(g, Row(g, root, d))
    ensures Above(g, root, d + 1) == Above(g, root, d) + Row(g, root, d)
    ensures Flat(g, []) == []
  {
  }

  /** When a row is used up the next row is in the queue. */
  lemma NextRow<O>(g: Loader<O>, root: O, t: State<O>, d: nat)
    requires var row := Row(g, root, d);
             t.out == Above(g, root, d) + row[..|row|] && t.queue == row[|row|..] + Flat(g, row[..|row|])
    ensures t.queue != [] ==> At(g, root, t, d + 1, 0)
    ensures t.queue == [] ==> At(g, root, t, d, |Row(g, root, d)|)
  {
    CutNothing(Above(g, root, d), Row(g, root, d));
    RowsNext(g, root, d);
    CutNothing(Above(g, root, d + 1), Row(g, root, d + 1));
  }

  lemma StartShape<O>(g: Loader<O>, limit: Option<nat>, root: O)
    ensures At(g, root, Turns(g, limit, root, 0), 0, 0)
  {
    assert [root][..0] == [];
  }

  lemma {:induction false} TurnsShape<O>(g: Loader<O>, limit: Option<nat>, root: O, n: nat) returns (d: nat, j: nat)
    ensures At(g, root, Turns(g, limit, root, n), d, j)
  {
    if n == 0 {
      StartShape(g, limit, root);
      d, j := 0, 0;
    } else {
      d, j := TurnsShape(g, limit, root, n - 1);
      var s, t := Turns(g, limit, root, n - 1), Turns(g, limit, root, n);
      if t.status.Running? {
        TurnMoves(g, limit, s);
        MoveInRow(g, root, s, t, d, j);
        if j + 1 == |Row(g, root, d)| {
          NextRow(g, root, t, d);
          d, j := if t.queue == [] then d else d + 1, if t.queue == [] then j + 1 else 0;
        } else {
          j := j + 1;
        }
      } else {
        TurnStays(g, limit, s);
      }
    }
  }

  /** The number of items seen is one more than the number of links counted. */
  lemma {:induction false} TurnsCount<O>(g: Loader<O>, limit: Option<nat>, root: O, n: nat)
    ensures var s := Turns(g, limit, root, n);
            && |s.out| + |s.queue| == 1 + s.counter
            && s.counter == LinkCount(g, s.out)
            && !Exceeds(s.counter, limit)
            && |s.out| <= n && (s.status.Running? ==> |s.out| == n)
  {
    if n > 0 {
      TurnsCount(g, limit, root, n - 1);
      TurnCounts(g, limit, Turns(g, limit, root, n - 1));
    }
  }

  lemma TurnCounts<O>(g: Loader<O>, limit: Option<nat>, s: State<O>)
    requires |s.out| + |s.queue| == 1 + s.counter && s.counter == LinkCount(g, s.out) && !Exceeds(s.counter, limit)
    ensures var t := Turn(g, limit, s);
            && |t.out| + |t.queue| == 1 + t.counter && t.counter == LinkCount(g, t.out) && !Exceeds(t.counter, limit)
            && |s.out| <= |t.out| <= |s.out| + 1 && (t.status.Running? ==> s.status.Running? && |t.out| == |s.out| + 1)
  {
    var t := Turn(g, limit, s);
    if t.out != s.out {
      assert t.out[..|s.out|] == s.out;
    }
  }

  /** What made the traversal fail: the first item after those yielded has unreadable links, or would
      exceed the budget, or has a link that does not resolve. */
  predicate Fault<O>(g: Loader<O>, limit: Option<nat>, yielded: seq<O>, o: O, e: Error) {
    var links := g.links(o);
    match e
    case BadLinks => links.None?
    case LimitExceeded => links.Some? && Exceeds(LinkCount(g, yielded) + |links.value|, limit)
    case Unresolved => links.Some? && !Exceeds(LinkCount(g, yielded) + |links.value|, limit) && ResolveAll(g, links.value).None?
  }

  predicate IsFaulty<O>(g: Loader<O>, limit: Option<nat>, yielded: seq<O>, o: O) {
    Fault(g, limit, yielded, o, BadLinks) || Fault(g, limit, yielded, o, LimitExceeded) || Fault(g, limit, yielded, o, Unresolved)
  }

  lemma TurnFault<O>(g: Loader<O>, limit: Option<nat>, s: State<O>)
    requires s.status.Running? && s.counter == LinkCount(g, s.out)
    ensures var t := Turn(g, limit, s);
            && (t.status.Failed? ==> s.queue != [] && Fault(g, limit, s.out, s.queue[0], t.status.error))
            && (t.status.Done? ==> s.queue == [])
            && (t.status.Running? ==> s.queue != [] && !IsFaulty(g, limit, s.out, s.queue[0]))
  {
  }

  /** No item was faulty when it was yielded. */
  predicate Clean<O>(g: Loader<O>, limit: Option<nat>, out: seq<O>) {
    forall i | 0 <= i < |out| :: !IsFaulty(g, limit, out[..i], out[i])
  }

  lemma CleanAppend<O>(g: Loader<O>, limit: Option<nat>, out: seq<O>, o: O)
    requires Clean(g, limit, out) && !IsFaulty(g, limit, out, o)
    ensures Clean(g, limit, out + [o])
  {
    forall i | 0 <= i < |out + [o]| ensures !IsFaulty(g, limit, (out + [o])[..i], (out + [o])[i]) {
      assert (out + [o])[..i] == out[..i];
      if i == |out| {
        assert out[..i] == out;
      }
    }
  }

  /** The status tells why the traversal is where it is. */
  predicate Explained<O>(g: Loader<O>, limit: Option<nat>, s: State<O>) {
    && (s.status.Failed? ==> s.queue != [] && Fault(g, limit, s.out, s.queue[0], s.status.error))
    && (s.status.Done? ==> s.queue == [])
    && Clean(g, limit, s.out)
  }

  lemma TurnExplained<O>(g: Loader<O>, limit: Option<nat>, s: State<O>)
    requires Explained(g, limit, s) && s.counter == LinkCount(g, s.out)
    ensures Explained(g, limit, Turn(g, limit, s))
  {
    if s.status.Running? {
      TurnFault(g, limit, s);
      if Turn(g, limit, s).status.Running? {
        TurnMoves(g, limit, s);
        CleanAppend(g, limit, s.out, s.queue[0]);
      } else {
        TurnStays(g, limit, s);
      }
    }
  }

  lemma StartExplained<O>(g: Loader<O>, limit: Option<nat>, root: O)
    ensures Explained(g, limit, Turns(g, limit, root, 0))
  {
  }

  lemma {:induction false} TurnsExplained<O>(g: Loader<O>, limit: Option<nat>, root: O, n: nat)
    ensures Explained(g, limit, Turns(g, limit, root, n))
  {
    if n == 0 {
      StartExplained(g, limit, root);
    } else {
      TurnsExplained(g, limit, root, n - 1);
      NextExplained(g, limit, root, n - 1);
    }
  }

  lemma NextExplained<O>(g: Loader<O>, limit: Option<nat>, root: O, n: nat)
    requires Explained(g, limit, Turns(g, limit, root, n))
    ensures Explained(g, limit, Turns(g, limit, root, n + 1))
  {
    TurnsCount(g, limit, root, n);
    TurnExplained(g, limit, Turns(g, limit, root, n));
  }

  /** The traversal yields the items in exactly the breadth-first order of the link unfolding. After any
      number of turns the output is a prefix of that order. It ends without error only when every row
      has been yielded. It fails exactly at the first item of the order that is faulty. */
  lemma BreadthFirst<O>(g: Loader<O>, limit: Option<nat>, root: O, n: nat) returns (d: nat)
    ensures var s := Turns(g, limit, root, n);
            && s.out <= Above(g, root, d + 1)
            && (s.status.Done? ==> s.out == Above(g, root, d + 1) && Row(g, root, d + 1) == [])
            && (s.status.Failed? ==>
                  && |s.out| < |Above(g, root, d + 1)|
                  && Fault(g, limit, s.out, Above(g, root, d + 1)[|s.out|], s.status.error))
            && Clean(g, limit, s.out)
  {
    var j;
    d, j := TurnsShape(g, limit, root, n);
    TurnsExplained(g, limit, root, n);
    ShapeInOrder(g, root, Turns(g, limit, root, n), d, j);
  }

  lemma ShapeInOrder<O>(g: Loader<O>, root: O, s: State<O>, d: nat, j: nat)
    requires At(g, root, s, d, j)
    ensures s.out <= Above(g, root, d + 1)
    ensures s.queue == [] ==> s.out == Above(g, root, d + 1) && Row(g, root, d + 1) == []
    ensures s.queue != [] ==> |s.out| < |Above(g, root, d + 1)| && Above(g, root, d + 1)[|s.out|] == s.queue[0]
  {
    var row := Row(g, root, d);
    assert row == row[..j] + row[j..];
    if s.queue == [] {
      assert |row[j..]| == 0 && row[..j] == row;
    }
  }

  /** With a limit the traversal ends on every link graph, cyclic ones included, after at most one more
      item than the limit. */
  lemma LimitEnds<O>(g: Loader<O>, limit: nat, root: O, n: nat)
    ensures |Turns(g, Some(limit), root, n).out| <= limit + 1
    ensures n > limit + 1 ==> !Turns(g, Some(limit), root, n).status.Running?
  {
    TurnsCount(g, Some(limit), root, n);
  }

  /** Beyond an empty row the order does not change, so the whole order is well defined. */
  lemma {:induction false} OrderSettles<O>(g: Loader<O>, root: O, d: nat, e: nat)
    requires Row(g, root, d) == [] && d <= e
    ensures Above(g, root, e) == Above(g, root, d) && Row(g, root, e) == []
    decreases e
  {
    if d < e {
      OrderSettles(g, root, d, e - 1);
      SettledStep(g, root, e - 1);
    }
  }

  lemma SettledStep<O>(g: Loader<O>, root: O, e: nat)
    requires Row(g, root, e) == []
    ensures Above(g, root, e + 1) == Above(g, root, e) && Row(g, root, e + 1) == []
  {
    RowsNext(g, root, e);
  }

  /* ---- The loop ---- */

  lemma ResolveNext<O>(g: Loader<O>, links: seq<Cid>, n: nat, done: seq<O>)
    requires n < |links| && ResolveAll(g, links[..n]) == Some(done) && g.resolve(links[n]).Some?
    ensures ResolveAll(g, links[..n + 1]) == Some(done + [g.resolve(links[n]).value])
  {
    assert links[..n + 1][..n] == links[..n];
  }

  /** Resolves the links in chunks. All links of a chunk are resolved before any result is looked at;
      the first failure in order ends the work. */
  method ResolveLinks<O>(g: Loader<O>, links: seq<Cid>, chunkSize: nat) returns (kids: Option<seq<O>>)
    requires chunkSize > 0
    ensures kids == ResolveAll(g, links)
  {
    kids := Some([]);
    var i := 0;
    while i < |links|
      invariant 0 <= i <= |links|
      invariant kids.Some? && ResolveAll(g, links[..i]) == kids
    {
      var end := if i + chunkSize < |links| then i + chunkSize else |links|;
      var next := seq(end - i, k requires 0 <= k < end - i => g.resolve(links[i + k]));
      kids := TakeChunk(g, links, i, next, kids.value);
      if kids.None? {
        ResolvePrefix(g, links, end);
        return;
      }
      i := end;
    }
    assert links[..|links|] == links;
  }

  lemma ResolvePrefix<O>(g: Loader<O>, links: seq<Cid>, n: nat)
    requires n <= |links|
    ensures ResolveAll(g, links).Some? ==> ResolveAll(g, links[..n]).Some?
  {
    assert forall i | 0 <= i < n :: links[..n][i] == links[i];
  }

  /** Looks at the results of one chunk in order. */
  method TakeChunk<O>(g: Loader<O>, links: seq<Cid>, i: nat, next: seq<Option<O>>, before: seq<O>)
    returns (kids: Option<seq<O>>)
    requires i + |next| <= |links| && forall k | 0 <= k < |next| :: next[k] == g.resolve(links[i + k])
    requires ResolveAll(g, links[..i]) == Some(before)
    ensures kids == ResolveAll(g, links[..i + |next|])
  {
    var done := before;
    var k := 0;
    while k < |next|
      invariant 0 <= k <= |next|
      invariant ResolveAll(g, links[..i + k]) == Some(done)
    {
      if next[k].None? {
        assert links[..i + |next|][i + k] == links[i + k];
        return None;
      }
      ResolveNext(g, links, i + k, done);
      done := done + [next[k].value];
      k := k + 1;
    }
    kids := Some(done);
  }

  /** The stream of `resolve_recursive_mapped` for a resolved root, asked for `demand` items: what it has
      yielded and how it stands. The result does not depend on the chunk size. */
  method ResolveRecursive<O>(g: Loader<O>, limit: Option<nat>, root: O, chunkSize: nat, demand: nat)
    returns (out: seq<O>, status: Status)
    requires chunkSize > 0
    ensures out == Turns(g, limit, root, demand).out && status == Turns(g, limit, root, demand).status
  {
    var queue, counter: nat := [root], 0;
    out, status := [], Running;
    for n := 0 to demand
      invariant Turns(g, limit, root, n) == State(queue, counter, out, status)
    {
      if status.Running? {
        if queue == [] {
          status := Done;
          continue;
        }
        var current := queue[0];
        var links := g.links(current);
        if links.None? {
          status := Failed(BadLinks);
          continue;
        }
        if Exceeds(counter + |links.value|, limit) {
          status := Failed(LimitExceeded);
          continue;
        }
        var kids := ResolveLinks(g, links.value, chunkSize);
        if kids.None? {
          status := Failed(Unresolved);
          continue;
        }
        counter := counter + |links.value|;
        queue := queue[1..] + kids.value;
        out := out + [current];
      }
    }
  }
}
