/** Every sequence of swarm, identify, handler and network events. */
module PeerRuns {
  import opened PeerModel
  import opened Options
  import opened Switches

  /* ---- Notifications follow the state ---- */

  /** The latest notification about the peer. */
  function Latest(notices: seq<Notice>, p: Peer): Option<Notice> {
    if notices == [] then None
    else if notices[|notices| - 1].peer == p then Some(notices[|notices| - 1])
    else Latest(notices[..|notices| - 1], p)
  }

  /** A responsive peer was last announced as up, and a peer last announced as up is connected; a
      disconnected peer is never stored. */
  predicate PeerOk(peers: map<Peer, PeerState>, notices: seq<Notice>, p: Peer) {
    && (p in peers ==> !peers[p].Disconnected?)
    && (p in peers && peers[p].Responsive? ==> Latest(notices, p) == Some(Up(p)))
    && (Latest(notices, p) == Some(Up(p)) ==> p in peers && IsConnected(peers[p]))
  }

  lemma LatestAppend(notices: seq<Notice>, n: Notice, p: Peer)
    ensures Latest(notices + [n], p) == if n.peer == p then Some(n) else Latest(notices, p)
  {
    assert (notices + [n])[..|notices|] == notices;
  }

  /** The peers after `set_peer_state`: the requested state is recorded, except that a disconnected peer is
      forgotten and a second connection is ignored. */
  function Recorded(peers: map<Peer, PeerState>, p: Peer, s: PeerState): map<Peer, PeerState> {
    if s.Disconnected? && (p in peers ==> !peers[p].Disconnected?) then peers - {p}
    else if s.Connected? && p in peers && peers[p].Connected? then peers
    else peers[p := s]
  }

  /** What `set_peer_state` announces. A peer becomes responsive or changes its connection or protocol: up.
      A peer that was connected or not known at all becomes anything else than connected: down. */
  function Announced(peers: map<Peer, PeerState>, p: Peer, s: PeerState): seq<Notice> {
    if s.Responsive? then (if p in peers && peers[p] == s then [] else [Up(p)])
    else if s.Connected? then []
    else if p !in peers || IsConnected(peers[p]) then [Down(p)]
    else []
  }

  /** `set_peer_state` changes only the peer map, as recorded, and the notices, as announced. */
  lemma SetStateIs(w: World, p: Peer, s: PeerState)
    ensures SetState(w, p, s)
            == w.(peers := Recorded(w.peers, p, s), notices := w.notices + Announced(w.peers, p, s))
  {
    assert w.notices + [] == w.notices;
    assert p !in w.peers ==> w.peers - {p} == w.peers;
    if p in w.peers && w.peers[p] == s {
      assert w.peers[p := s] == w.peers;
    }
  }

  lemma SetStateKeeps(w: World, q: Peer, s: PeerState, p: Peer)
    requires PeerOk(w.peers, w.notices, p)
    ensures PeerOk(SetState(w, q, s).peers, SetState(w, q, s).notices, p)
  {
    SetStateIs(w, q, s);
    LatestAppend(w.notices, Up(q), p);
    LatestAppend(w.notices, Down(q), p);
    assert w.notices + [] == w.notices;
  }

  /* ---- Every dial request is answered once ---- */

  function Answered(answers: seq<Answer>, s: Sender): nat {
    if answers == [] then 0
    else Answered(answers[..|answers| - 1], s) + (if answers[|answers| - 1].sender == s then 1 else 0)
  }

  function Pendings(dials: seq<Dial>, s: Sender): nat {
    if dials == [] then 0
    else Pendings(dials[..|dials| - 1], s) + (if dials[|dials| - 1].sender == s then 1 else 0)
  }

  /** A taken request is answered exactly once or pending exactly once, under its own peer; a request that was
      not taken is neither. */
  predicate SenderOk(dials: map<Peer, seq<Dial>>, answers: seq<Answer>, taken: map<Sender, Peer>, s: Sender) {
    && (if s in taken then Answered(answers, s) + Pendings(PendingFor(dials, taken[s]), s) == 1
        else Answered(answers, s) == 0)
    && (forall p | p in dials && Pendings(dials[p], s) > 0 :: s in taken && taken[s] == p)
  }

  ghost predicate TableOk(dials: map<Peer, seq<Dial>>, answers: seq<Answer>, taken: map<Sender, Peer>) {
    forall s :: SenderOk(dials, answers, taken, s)
  }

  ghost predicate DialsOk(w: World) {
    TableOk(w.dials, w.answers, w.taken)
  }

  lemma {:induction false} AnsweredAppend(a: seq<Answer>, b: seq<Answer>, s: Sender)
    ensures Answered(a + b, s) == Answered(a, s) + Answered(b, s)
  {
    if b == [] {
      assert a + b == a;
    } else {
      assert (a + b)[..|a + b| - 1] == a + b[..|b| - 1];
      AnsweredAppend(a, b[..|b| - 1], s);
    }
  }

  lemma {:induction false} PoppedAnswers(dials: seq<Dial>, reply: Reply, s: Sender)
    ensures Answered(Popped(dials, reply), s) == Pendings(dials, s)
  {
    if dials != [] {
      var n := |dials| - 1;
      PoppedAnswers(dials[..n], reply, s);
      var first := [Answer(dials[n].sender, reply)];
      AnsweredAppend(first, Popped(dials[..n], reply), s);
      assert first[..0] == [];
    }
  }

  lemma DrainTable(dials: map<Peer, seq<Dial>>, answers: seq<Answer>, taken: map<Sender, Peer>, p: Peer, reply: Reply)
    requires TableOk(dials, answers, taken) && p in dials
    ensures TableOk(dials - {p}, answers + Popped(dials[p], reply), taken)
  {
    var rest, after := dials - {p}, answers + Popped(dials[p], reply);
    forall s ensures SenderOk(rest, after, taken, s) {
      AnsweredAppend(answers, Popped(dials[p], reply), s);
      PoppedAnswers(dials[p], reply, s);
      assert SenderOk(dials, answers, taken, s);
    }
  }

  lemma PendingsAppend(dials: seq<Dial>, d: Dial, s: Sender)
    ensures Pendings(dials + [d], s) == Pendings(dials, s) + (if d.sender == s then 1 else 0)
  {
    assert (dials + [d])[..|dials|] == dials;
  }

  lemma AnswerTable(dials: map<Peer, seq<Dial>>, answers: seq<Answer>, taken: map<Sender, Peer>, p: Peer, a: Answer)
    requires TableOk(dials, answers, taken) && a.sender !in taken
    ensures TableOk(dials, answers + [a], taken[a.sender := p])
  {
    var after, took := answers + [a], taken[a.sender := p];
    forall s ensures SenderOk(dials, after, took, s) {
      assert (answers + [a])[..|answers|] == answers;
      assert SenderOk(dials, answers, taken, s);
    }
  }

  lemma PendTable(dials: map<Peer, seq<Dial>>, answers: seq<Answer>, taken: map<Sender, Peer>, p: Peer, d: Dial)
    requires TableOk(dials, answers, taken) && d.sender !in taken
    ensures TableOk(dials[p := PendingFor(dials, p) + [d]], answers, taken[d.sender := p])
  {
    var after, took := dials[p := PendingFor(dials, p) + [d]], taken[d.sender := p];
    forall s ensures SenderOk(after, answers, took, s) {
      PendingsAppend(PendingFor(dials, p), d, s);
      assert SenderOk(dials, answers, taken, s);
    }
  }

  lemma TakeDialKeeps(w: World, p: Peer, id: nat, sender: Sender, now: nat)
    requires DialsOk(w) && sender !in w.taken
    ensures DialsOk(TakeDial(w, p, id, sender, now))
  {
    var reply := DialReply(w, p, now);
    if reply.Some? {
      AnswerTable(w.dials, w.answers, w.taken, p, Answer(sender, reply.value));
    } else {
      PendTable(w.dials, w.answers, w.taken, p, Dial(id, sender));
    }
  }

  /* ---- Runs ---- */

  datatype Step = Told(event: Event) | Took(request: OutEvent, now: nat)

  /** Every dial request comes with its own reply channel. */
  predicate Allowed(w: World, step: Step) {
    step.Took? && step.request.DialPeer? ==> step.request.sender !in w.taken
  }

  function Next(w: World, step: Step): World {
    match step
    case Told(e) => Handle(w, e)
    case Took(e, now) => TakeOne(w, e, now)
  }

  predicate Run(ws: seq<World>, steps: seq<Step>) {
    |ws| == |steps| + 1 && forall i | 0 <= i < |steps| :: Allowed(ws[i], steps[i]) && ws[i + 1] == Next(ws[i], steps[i])
  }

  ghost predicate PeersOk(peers: map<Peer, PeerState>, notices: seq<Notice>) {
    forall p :: PeerOk(peers, notices, p)
  }

  ghost predicate Inv(w: World) {
    DialsOk(w) && PeersOk(w.peers, w.notices)
  }

  /** The dial table changes only when an event drains the dials of its peer. */
  lemma HandleDials(w: World, e: Event)
    ensures var t := Handle(w, e);
            && t.taken == w.taken
            && var reply := DrainReply(e);
               if reply.Some? && e.peer in w.dials
               then t.dials == w.dials - {e.peer} && t.answers == w.answers + Popped(w.dials[e.peer], reply.value)
               else t.dials == w.dials && t.answers == w.answers
  {
    var s := Requested(w.peers, e);
    if s.Some? {
      SetStateIs(w.(paused := PausedAfter(w.paused, e)), e.peer, s.value);
    }
  }

  lemma HandleKeepsDials(w: World, e: Event)
    requires DialsOk(w)
    ensures DialsOk(Handle(w, e))
  {
    HandleDials(w, e);
    var reply := DrainReply(e);
    if reply.Some? && e.peer in w.dials {
      DrainTable(w.dials, w.answers, w.taken, e.peer, reply.value);
    }
  }

  /** Peers and notices change only as `set_peer_state` changes them. */
  lemma HandlePeers(w: World, e: Event)
    ensures var t, s := Handle(w, e), Requested(w.peers, e);
            if s.Some?
            then t.peers == SetState(w, e.peer, s.value).peers && t.notices == SetState(w, e.peer, s.value).notices
            else t.peers == w.peers && t.notices == w.notices
  {
    var s := Requested(w.peers, e);
    if s.Some? {
      SetStateIs(w, e.peer, s.value);
      SetStateIs(w.(paused := PausedAfter(w.paused, e)), e.peer, s.value);
    }
  }

  lemma HandleKeepsPeer(w: World, e: Event, p: Peer)
    requires PeerOk(w.peers, w.notices, p)
    ensures PeerOk(Handle(w, e).peers, Handle(w, e).notices, p)
  {
    HandlePeers(w, e);
    var s := Requested(w.peers, e);
    if s.Some? {
      SetStateKeeps(w, e.peer, s.value, p);
    }
  }

  /** Taking a request from the network announces nothing. */
  lemma TakeOnePeers(w: World, e: OutEvent, now: nat)
    ensures TakeOne(w, e, now).peers == w.peers && TakeOne(w, e, now).notices == w.notices
  {
  }

  lemma TakeOneDials(w: World, e: OutEvent, now: nat)
    requires DialsOk(w) && Allowed(w, Took(e, now))
    ensures DialsOk(TakeOne(w, e, now))
  {
    if e.DialPeer? {
      TakeDialKeeps(w, e.peer, e.id, e.sender, now);
    }
  }

  lemma TookKeeps(w: World, e: OutEvent, now: nat)
    requires Inv(w) && Allowed(w, Took(e, now))
    ensures Inv(TakeOne(w, e, now))
  {
    TakeOnePeers(w, e, now);
    TakeOneDials(w, e, now);
  }

  lemma NextKeeps(w: World, step: Step)
    requires Inv(w) && Allowed(w, step)
    ensures Inv(Next(w, step))
  {
    match step
    case Told(e) =>
      HandleKeepsDials(w, e);
      var t := Handle(w, e);
      forall p ensures PeerOk(t.peers, t.notices, p) { HandleKeepsPeer(w, e, p); }
    case Took(e, now) => TookKeeps(w, e, now);
  }

  /** Safety over whole runs: in every state of every run a responsive peer was last announced as up,
      a peer last announced as up is connected, no peer is stored as disconnected, and every dial
      request taken so far is answered exactly once or pending exactly once under its own peer. */
  lemma {:induction false} EveryRun(ws: seq<World>, steps: seq<Step>, i: nat)
    requires Run(ws, steps) && i < |ws| && ws[0] == NEW_WORLD
    ensures Inv(ws[i])
  {
    if i > 0 {
      EveryRun(ws, steps, i - 1);
      NextKeeps(ws[i - 1], steps[i - 1]);
    }
  }

  /* ---- What the answers say ---- */

  /** A successful answer names the connection that its peer has now. */
  predicate Truthful(w: World, a: Answer) {
    a.reply.Reached? ==>
      && a.sender in w.taken && w.taken[a.sender] in w.peers
      && var s := w.peers[w.taken[a.sender]];
         IsConnected(s) && s.conn == a.reply.conn
         && (a.reply.protocol.Some? ==> s == Responsive(a.reply.conn, a.reply.protocol.value))
  }

  lemma {:induction false} PoppedSenders(dials: seq<Dial>, reply: Reply, i: nat)
    requires i < |Popped(dials, reply)|
    ensures |Popped(dials, reply)| == |dials|
    ensures Popped(dials, reply)[i] == Answer(dials[|dials| - 1 - i].sender, reply)
    ensures Pendings(dials, Popped(dials, reply)[i].sender) > 0
  {
    var n := |dials| - 1;
    if i > 0 {
      PoppedSenders(dials[..n], reply, i - 1);
    } else if n > 0 {
      PoppedSenders(dials[..n], reply, 0);
    }
  }

  /** Answers are only ever added, and those added by a step are truthful when they are given. */
  lemma NextAnswers(w: World, step: Step)
    requires DialsOk(w) && Allowed(w, step)
    ensures w.answers <= Next(w, step).answers
    ensures forall s | s in w.taken :: s in Next(w, step).taken && Next(w, step).taken[s] == w.taken[s]
    ensures forall i | |w.answers| <= i < |Next(w, step).answers| :: Truthful(Next(w, step), Next(w, step).answers[i])
  {
    match step
    case Told(e) =>
      HandleDials(w, e);
      var t := Handle(w, e);
      var reply := DrainReply(e);
      if reply.Some? && e.peer in w.dials {
        forall i | |w.answers| <= i < |t.answers| ensures Truthful(t, t.answers[i]) {
          PoppedSenders(w.dials[e.peer], reply.value, i - |w.answers|);
          assert SenderOk(w.dials, w.answers, w.taken, t.answers[i].sender);
          if e.HandlerConnected? {
            HandlePeers(w, e);
            SetStateIs(w, e.peer, Responsive(e.conn, e.protocol));
          }
        }
      }
    case Took(e, now) =>
  }

  /** The answers of the first state start those of the second, and taken requests keep their peer. */
  predicate Later(w: World, t: World) {
    w.answers <= t.answers && forall s | s in w.taken :: s in t.taken && t.taken[s] == w.taken[s]
  }

  lemma {:induction false} LaterChain(ws: seq<World>, i: nat, j: nat)
    requires i <= j < |ws| && forall k | 0 <= k < |ws| - 1 :: Later(ws[k], ws[k + 1])
    ensures Later(ws[i], ws[j])
    decreases j
  {
    if i < j {
      LaterChain(ws, i, j - 1);
      assert Later(ws[j - 1], ws[j - 1 + 1]);
    }
  }

  /** Over whole runs a reply, once given, stays the one reply to its request. */
  lemma AnswersAreFinal(ws: seq<World>, steps: seq<Step>, i: nat, j: nat)
    requires Run(ws, steps) && ws[0] == NEW_WORLD && i <= j < |ws|
    ensures Later(ws[i], ws[j])
  {
    forall k | 0 <= k < |ws| - 1 ensures Later(ws[k], ws[k + 1]) {
      EveryRun(ws, steps, k);
      NextAnswers(ws[k], steps[k]);
    }
    LaterChain(ws, i, j);
  }

  lemma {:induction false} PoppedLength(dials: seq<Dial>, reply: Reply)
    ensures |Popped(dials, reply)| == |dials|
  {
    if dials != [] {
      PoppedLength(dials[..|dials| - 1], reply);
    }
  }

  /* ---- Dials that wait although their peer is connected ---- */

  /** The peer is connected and a dial of it is still pending. */
  predicate Waits(w: World, p: Peer) {
    p in w.peers && IsConnected(w.peers[p]) && PendingFor(w.dials, p) != []
  }

  /** A connection or a message comes while dials of the peer are pending; neither looks at them. */
  predicate Begins(w: World, step: Step, p: Peer) {
    && step.Told? && (step.event.Established? || step.event.Message?) && step.event.peer == p
    && PendingFor(w.dials, p) != []
  }

  /** The pending dials of the peer are answered, or its connection ends. */
  predicate Ends(step: Step, p: Peer) {
    && step.Told? && !step.event.DialFailedUnknown? && step.event.peer == p
    && (step.event.HandlerConnected? || step.event.ProtocolNotSupported? || step.event.DialFailed?
        || (step.event.ConnectionClosed? && step.event.remaining == 0))
  }

  /** Which steps start the waiting and which end it; no others do. */
  lemma WaitsNext(w: World, step: Step, p: Peer)
    ensures Waits(Next(w, step), p) <==> Begins(w, step, p) || (Waits(w, p) && !Ends(step, p))
  {
    match step
    case Told(e) =>
      HandlePeers(w, e);
      HandleDials(w, e);
      var s := Requested(w.peers, e);
      if s.Some? {
        SetStateIs(w, e.peer, s.value);
      }
    case Took(e, now) =>
  }

  /** The waiting began at step `j` and nothing ended it before step `i`. */
  predicate WaitsSince(ws: seq<World>, steps: seq<Step>, p: Peer, j: nat, i: nat)
    requires |ws| == |steps| + 1 && j < i < |ws|
  {
    Begins(ws[j], steps[j], p) && forall k | j < k < i :: !Ends(steps[k], p)
  }

  /** Exactly when a connected peer has pending dials, over whole runs: a connection was established or a
      message came while dials were pending, and since then neither did the handler report a protocol or
      its absence, nor a dial fail, nor the last connection close. */
  lemma WaitsExactly(ws: seq<World>, steps: seq<Step>, p: Peer, i: nat)
    requires Run(ws, steps) && ws[0] == NEW_WORLD && i < |ws|
    ensures Waits(ws[i], p) <==> exists j | 0 <= j < i :: WaitsSince(ws, steps, p, j, i)
  {
    var state := seq(|ws|, k requires 0 <= k < |ws| => Waits(ws[k], p));
    var on := seq(|steps|, k requires 0 <= k < |steps| => Begins(ws[k], steps[k], p));
    var off := seq(|steps|, k requires 0 <= k < |steps| => Ends(steps[k], p));
    forall k | 0 <= k < |on| ensures state[k + 1] <==> on[k] || (state[k] && !off[k]) {
      WaitsNext(ws[k], steps[k], p);
    }
    Switched(state, on, off, i);
    forall j | 0 <= j < i ensures OnSince(on, off, j, i) <==> WaitsSince(ws, steps, p, j, i) {
      SameSince(ws, steps, p, on, off, j, i);
    }
  }

  lemma SameSince(ws: seq<World>, steps: seq<Step>, p: Peer, on: seq<bool>, off: seq<bool>, j: nat, i: nat)
    requires |ws| == |steps| + 1 && j < i < |ws| && |on| == |off| == |steps|
    requires forall k | 0 <= k < |steps| :: on[k] == Begins(ws[k], steps[k], p)
    requires forall k | 0 <= k < |steps| :: off[k] == Ends(steps[k], p)
    ensures OnSince(on, off, j, i) <==> WaitsSince(ws, steps, p, j, i)
  {
  }

  lemma FirstDial()
    ensures Next(NEW_WORLD, Took(DialPeer(7, 0, 0), 0))
            == World(map[], [], map[7 := [Dial(0, 0)]], false, [], map[0 := 7])
  {
    assert [] + [Dial(0, 0)] == [Dial(0, 0)];
  }

  lemma ConnectedMeanwhile(dials: map<Peer, seq<Dial>>, taken: map<Sender, Peer>)
    ensures var w := World(map[], [], dials, false, [], taken);
            Next(w, Told(Established(7, 1))) == w.(peers := map[7 := Connected(1)])
  {
    SetStateIs(World(map[], [], dials, false, [], taken), 7, Connected(1));
  }

  lemma ResponsiveMeanwhile(dials: map<Peer, seq<Dial>>, taken: map<Sender, Peer>)
    ensures var w := World(map[7 := Connected(1)], [], dials, false, [], taken);
            Next(w, Told(Message(7, 1, Bitswap120)))
            == w.(peers := map[7 := Responsive(1, Bitswap120)], notices := [Up(7)])
  {
    SetStateIs(World(map[7 := Connected(1)], [], dials, false, [], taken), 7, Responsive(1, Bitswap120));
    assert map[7 := Connected(1)][7 := Responsive(1, Bitswap120)] == map[7 := Responsive(1, Bitswap120)];
  }

  /** A dial is pending, the connection is established, a message names the protocol, and still the dial has
      no answer. */
  lemma ResponsivePeerWithPendingDial()
    ensures var w1 := Next(NEW_WORLD, Took(DialPeer(7, 0, 0), 0));
            var w2 := Next(w1, Told(Established(7, 1)));
            Next(w2, Told(Message(7, 1, Bitswap120)))
            == World(map[7 := Responsive(1, Bitswap120)], [Up(7)], map[7 := [Dial(0, 0)]], false, [], map[0 := 7])
  {
    FirstDial();
    ConnectedMeanwhile(map[7 := [Dial(0, 0)]], map[0 := 7]);
    ResponsiveMeanwhile(map[7 := [Dial(0, 0)]], map[0 := 7]);
  }

  /* ---- One call of poll ---- */

  function TakeAll(w: World, events: seq<OutEvent>, now: nat): World {
    if events == [] then w else TakeOne(TakeAll(w, events[..|events| - 1], now), events[|events| - 1], now)
  }

  /** The state in which `poll` takes the event at the index, and what that event yields. */
  function StateAt(w: World, inbox: seq<OutEvent>, now: nat, i: nat): World
    requires i <= |inbox|
  {
    TakeAll(w, inbox[..i], now)
  }

  function ActionAt(w: World, inbox: seq<OutEvent>, now: nat, i: nat): Action
    requires i < |inbox|
  {
    ActionFor(StateAt(w, inbox, now, i), inbox[i], now)
  }

  lemma PolledStep(w: World, inbox: seq<OutEvent>, now: nat, n: nat)
    requires n < |inbox| && n < POLL_LIMIT
    ensures var action := ActionAt(w, inbox, now, n);
            Polled(StateAt(w, inbox, now, n), inbox, now, n) ==
            if action.Pending? then Polled(StateAt(w, inbox, now, n + 1), inbox, now, n + 1)
            else (StateAt(w, inbox, now, n + 1), action, n + 1)
  {
    assert inbox[..n + 1][..n] == inbox[..n];
  }

  /** From any point on, `poll` takes the longest run of network events, up to 50 in all, none of which
      but the last yields an action, and it takes them in order. */
  lemma {:induction false} PollTakes(w: World, inbox: seq<OutEvent>, now: nat, n: nat)
    requires n <= |inbox| && n <= POLL_LIMIT
    ensures var (v, action, m) := Polled(StateAt(w, inbox, now, n), inbox, now, n);
            && n <= m <= |inbox| && m <= POLL_LIMIT
            && v == StateAt(w, inbox, now, m)
            && (forall i | n <= i < m - 1 :: ActionAt(w, inbox, now, i).Pending?)
            && (m == n ==> action.Pending?)
            && (m > n ==> action == ActionAt(w, inbox, now, m - 1))
            && (action.Pending? ==> m == POLL_LIMIT || m == |inbox|)
    decreases POLL_LIMIT - n
  {
    if n < |inbox| && n < POLL_LIMIT {
      PolledStep(w, inbox, now, n);
      if ActionAt(w, inbox, now, n).Pending? {
        PollTakes(w, inbox, now, n + 1);
      }
    }
  }

  /** The dial requests from the `n`th event on come with reply channels of their own. */
  predicate OwnSenders(taken: map<Sender, Peer>, inbox: seq<OutEvent>, n: nat) {
    && (forall i | n <= i < |inbox| && inbox[i].DialPeer? :: inbox[i].sender !in taken)
    && (forall i, j | n <= i < j < |inbox| && inbox[i].DialPeer? && inbox[j].DialPeer? ::
          inbox[i].sender != inbox[j].sender)
  }

  lemma OwnSendersNext(w: World, inbox: seq<OutEvent>, now: nat, n: nat)
    requires n < |inbox| && OwnSenders(w.taken, inbox, n)
    ensures Allowed(w, Took(inbox[n], now))
    ensures OwnSenders(TakeOne(w, inbox[n], now).taken, inbox, n + 1)
  {
  }

  /** A whole call of `poll` keeps the invariant. */
  lemma {:induction false} PolledKeeps(w: World, inbox: seq<OutEvent>, now: nat, n: nat)
    requires n <= |inbox| && n <= POLL_LIMIT
    requires Inv(w) && OwnSenders(w.taken, inbox, n)
    ensures Inv(Polled(w, inbox, now, n).0)
    decreases POLL_LIMIT - n
  {
    if n < POLL_LIMIT && n < |inbox| {
      OwnSendersNext(w, inbox, now, n);
      TookKeeps(w, inbox[n], now);
      PolledKeeps(TakeOne(w, inbox[n], now), inbox, now, n + 1);
    }
  }
}
