/** The peer and dial tables told by the events of a run: what each event does to its peer, why every dial was
    answered as it was, and when a dial is refused. */
module PeerHistory {
  import opened PeerModel
  import opened PeerRuns
  import opened Options
  import opened Switches

  /* ---- One event ---- */

  /** What every event leaves of the peer map. */
  lemma EventStates(w: World, e: Event)
    requires e.DialFailedUnknown? || (e.peer in w.peers ==> !w.peers[e.peer].Disconnected?)
    ensures var t := Handle(w, e).peers;
            match e
            case Established(p, conn) =>
              t == if p in w.peers && w.peers[p].Connected? then w.peers else w.peers[p := Connected(conn)]
            case ConnectionClosed(p, remaining) => t == if remaining == 0 then w.peers - {p} else w.peers
            case DialFailed(p, limitReached, now) =>
              t == if limitReached then w.peers - {p} else w.peers[p := DialFailure(now)]
            case HandlerConnected(p, conn, protocol) => t == w.peers[p := Responsive(conn, protocol)]
            case Message(p, conn, protocol) => t == w.peers[p := Responsive(conn, protocol)]
            case ProtocolNotSupported(p) => t == w.peers[p := Unresponsive]
            case Identified(p, names) =>
              if p in w.peers && w.peers[p].Connected? && Best(names).Some?
              then t == w.peers[p := Responsive(w.peers[p].conn, Best(names).value)] else t == w.peers
            case SendFailed(_) => t == w.peers
            case DialFailedUnknown => t == w.peers
  {
    HandlePeers(w, e);
    var s := Requested(w.peers, e);
    if s.Some? {
      SetStateIs(w, e.peer, s.value);
    }
  }

  /** The dials pending for the peer are gone and each got the reply, and nothing else changed. */
  predicate Settled(w: World, t: World, p: Peer, reply: Reply) {
    && t.dials == w.dials - {p}
    && |t.answers| == |w.answers| + |PendingFor(w.dials, p)| && w.answers <= t.answers
    && (forall d | d in PendingFor(w.dials, p) :: Answer(d.sender, reply) in t.answers[|w.answers|..])
    && (forall a | a in t.answers[|w.answers|..] ::
          a.reply == reply && exists d :: d in PendingFor(w.dials, p) && d.sender == a.sender)
  }

  lemma PoppedIs(dials: seq<Dial>, reply: Reply)
    ensures |Popped(dials, reply)| == |dials|
    ensures forall d | d in dials :: Answer(d.sender, reply) in Popped(dials, reply)
    ensures forall a | a in Popped(dials, reply) ::
              a.reply == reply && exists d :: d in dials && d.sender == a.sender
  {
    PoppedLength(dials, reply);
    forall d | d in dials ensures Answer(d.sender, reply) in Popped(dials, reply) {
      var i :| 0 <= i < |dials| && dials[i] == d;
      PoppedSenders(dials, reply, |dials| - 1 - i);
    }
    forall a | a in Popped(dials, reply) ensures a.reply == reply && exists d :: d in dials && d.sender == a.sender {
      var i :| 0 <= i < |dials| && Popped(dials, reply)[i] == a;
      PoppedSenders(dials, reply, i);
      assert dials[|dials| - 1 - i] in dials;
    }
  }

  lemma DrainSettles(w: World, t: World, p: Peer, reply: Reply)
    requires if p in w.dials then t.dials == w.dials - {p} && t.answers == w.answers + Popped(w.dials[p], reply)
             else t.dials == w.dials && t.answers == w.answers
    ensures Settled(w, t, p, reply)
  {
    PoppedIs(PendingFor(w.dials, p), reply);
    if p in w.dials {
      assert t.answers[|w.answers|..] == Popped(w.dials[p], reply);
    } else {
      assert w.dials - {p} == w.dials;
    }
  }

  /** A handler that reports its protocol answers the dials of its peer with that connection and protocol; one
      that has none, and a failed dial, answer them with the error; no other event answers a dial. */
  lemma EventAnswers(w: World, e: Event)
    ensures var t := Handle(w, e);
            match e
            case HandlerConnected(p, conn, protocol) => Settled(w, t, p, Reached(conn, Some(protocol)))
            case ProtocolNotSupported(p) => Settled(w, t, p, NotSupported)
            case DialFailed(p, _, _) => Settled(w, t, p, DialError)
            case _ => t.dials == w.dials && t.answers == w.answers
  {
    HandleDials(w, e);
    var reply := DrainReply(e);
    if reply.Some? {
      DrainSettles(w, Handle(w, e), e.peer, reply.value);
    }
  }

  /* ---- Why a dial was answered ---- */

  /** The step accounts for the reply to a dial of the peer, made in state `w`. */
  predicate Reason(w: World, step: Step, p: Peer, reply: Reply) {
    match reply
    case Reached(conn, protocol) =>
      || (step.Told? && step.event.HandlerConnected? && protocol.Some?
          && step.event == HandlerConnected(p, conn, protocol.value))
      || (step.Took? && p in w.peers
          && w.peers[p] == if protocol.Some? then Responsive(conn, protocol.value) else Connected(conn))
    case DialError => step.Told? && step.event.DialFailed? && step.event.peer == p
    case NotSupported => step == Told(ProtocolNotSupported(p))
    case Undialable =>
      step.Took? && p in w.peers && w.peers[p].DialFailure? && step.now < w.peers[p].at + DIAL_BACK_OFF
    case Paused => step.Took? && w.paused
  }

  /** Every answer that a step adds goes to a request that was taken for a peer and has its reason. */
  predicate Reasoned(w: World, step: Step, t: World, a: Answer) {
    a.sender in t.taken && Reason(w, step, t.taken[a.sender], a.reply)
  }

  lemma PendingSenders(w: World, p: Peer, d: Dial)
    requires DialsOk(w) && d in PendingFor(w.dials, p)
    ensures d.sender in w.taken && w.taken[d.sender] == p
  {
    var ds := PendingFor(w.dials, p);
    var i :| 0 <= i < |ds| && ds[i] == d;
    PendingHas(ds, i);
    assert SenderOk(w.dials, w.answers, w.taken, d.sender);
  }

  lemma {:induction false} PendingHas(ds: seq<Dial>, i: nat)
    requires i < |ds|
    ensures Pendings(ds, ds[i].sender) > 0
  {
    if i < |ds| - 1 {
      PendingHas(ds[..|ds| - 1], i);
    }
  }

  lemma ToldReasons(w: World, e: Event, a: Answer)
    requires DialsOk(w) && |w.answers| <= |Handle(w, e).answers| && a in Handle(w, e).answers[|w.answers|..]
    ensures Reasoned(w, Told(e), Handle(w, e), a)
  {
    EventAnswers(w, e);
    HandleDials(w, e);
    if e.HandlerConnected? || e.ProtocolNotSupported? || e.DialFailed? {
      var d :| d in PendingFor(w.dials, e.peer) && d.sender == a.sender;
      PendingSenders(w, e.peer, d);
    }
  }

  lemma NextReasons(w: World, step: Step, n: nat)
    requires DialsOk(w) && Allowed(w, step) && |w.answers| <= n < |Next(w, step).answers|
    ensures Reasoned(w, step, Next(w, step), Next(w, step).answers[n])
  {
    var t := Next(w, step);
    match step
    case Told(e) =>
      assert t.answers[n] == t.answers[|w.answers|..][n - |w.answers|];
      ToldReasons(w, e, t.answers[n]);
    case Took(e, now) =>
  }

  /** The step that made the answers longer than `n`. */
  lemma {:induction false} GivenAt(lengths: seq<nat>, i: nat, n: nat) returns (j: nat)
    requires i < |lengths| && lengths[0] == 0 && n < lengths[i]
    ensures j < i && lengths[j] <= n < lengths[j + 1]
    decreases i
  {
    if lengths[i - 1] <= n {
      j := i - 1;
    } else {
      j := GivenAt(lengths, i - 1, n);
    }
  }

  /** Over whole runs every answer was given at one step, and that step is its reason. */
  lemma AnswersHaveReasons(ws: seq<World>, steps: seq<Step>, i: nat, n: nat) returns (j: nat)
    requires Run(ws, steps) && ws[0] == NEW_WORLD && i < |ws| && n < |ws[i].answers|
    ensures j < i && |ws[j].answers| <= n < |ws[j + 1].answers|
    ensures Reasoned(ws[j], steps[j], ws[j + 1], ws[i].answers[n])
  {
    j := GivenAt(seq(|ws|, k requires 0 <= k < |ws| => |ws[k].answers|), i, n);
    EveryRun(ws, steps, j);
    NextReasons(ws[j], steps[j], n);
    AnswersAreFinal(ws, steps, j + 1, i);
  }

  /* ---- When a dial is refused ---- */

  /** A dial failed on the connection limit. */
  predicate Halts(step: Step) {
    step.Told? && step.event.DialFailed? && step.event.limitReached
  }

  /** A connection came or went. */
  predicate Resumes(step: Step) {
    step.Told? && (step.event.Established? || step.event.ConnectionClosed?)
  }

  predicate HaltedSince(steps: seq<Step>, j: nat, i: nat)
    requires j < i <= |steps|
  {
    Halts(steps[j]) && forall k | j < k < i :: !Resumes(steps[k])
  }

  lemma PauseNext(w: World, step: Step)
    ensures Next(w, step).paused <==> Halts(step) || (w.paused && !Resumes(step))
  {
    match step
    case Told(e) =>
      var s := Requested(w.peers, e);
      if s.Some? {
        SetStateIs(w.(paused := PausedAfter(w.paused, e)), e.peer, s.value);
      }
    case Took(e, now) =>
  }

  /** Dialling is paused exactly when a dial failed on the connection limit and no connection came or went
      since. */
  lemma PausedExactly(ws: seq<World>, steps: seq<Step>, i: nat)
    requires Run(ws, steps) && ws[0] == NEW_WORLD && i < |ws|
    ensures ws[i].paused <==> exists j | 0 <= j < i :: HaltedSince(steps, j, i)
  {
    var state := seq(|ws|, k requires 0 <= k < |ws| => ws[k].paused);
    var on := seq(|steps|, k requires 0 <= k < |steps| => Halts(steps[k]));
    var off := seq(|steps|, k requires 0 <= k < |steps| => Resumes(steps[k]));
    forall k | 0 <= k < |on| ensures state[k + 1] <==> on[k] || (state[k] && !off[k]) {
      PauseNext(ws[k], steps[k]);
    }
    Switched(state, on, off, i);
    forall j | 0 <= j < i ensures OnSince(on, off, j, i) <==> HaltedSince(steps, j, i) {
      assert on[j] == Halts(steps[j]);
      assert forall k | j < k < i :: off[k] == Resumes(steps[k]);
    }
  }

  /** The step says something new about the peer, unless it is an identify message, which only speaks to
      connected ones. */
  predicate Speaks(step: Step, p: Peer) {
    && step.Told? && !step.event.DialFailedUnknown? && step.event.peer == p
    && !step.event.SendFailed? && !step.event.Identified?
    && (step.event.ConnectionClosed? ==> step.event.remaining == 0)
  }

  predicate Fails(step: Step, p: Peer, at: nat) {
    step == Told(DialFailed(p, false, at))
  }

  predicate FailedSince(steps: seq<Step>, p: Peer, at: nat, j: nat, i: nat)
    requires j < i <= |steps|
  {
    Fails(steps[j], p, at) && forall k | j < k < i :: !Speaks(steps[k], p)
  }

  predicate Failed(w: World, p: Peer, at: nat) {
    p in w.peers && w.peers[p] == DialFailure(at)
  }

  lemma FailedNext(w: World, step: Step, p: Peer, at: nat)
    requires Inv(w)
    ensures Failed(Next(w, step), p, at) <==>
            Fails(step, p, at) || (Failed(w, p, at) && !Speaks(step, p))
  {
    match step
    case Told(e) =>
      assert e.DialFailedUnknown? || PeerOk(w.peers, w.notices, e.peer);
      EventStates(w, e);
    case Took(e, now) =>
  }

  lemma FailedStep(ws: seq<World>, steps: seq<Step>, p: Peer, at: nat, k: nat)
    requires Run(ws, steps) && ws[0] == NEW_WORLD && k < |steps|
    ensures Failed(ws[k + 1], p, at) <==> Fails(steps[k], p, at) || (Failed(ws[k], p, at) && !Speaks(steps[k], p))
  {
    EveryRun(ws, steps, k);
    FailedNext(ws[k], steps[k], p, at);
  }

  lemma SameFailed(steps: seq<Step>, p: Peer, at: nat, on: seq<bool>, off: seq<bool>, j: nat, i: nat)
    requires j < i <= |steps| == |on| == |off|
    requires forall k | 0 <= k < |steps| :: on[k] == Fails(steps[k], p, at)
    requires forall k | 0 <= k < |steps| :: off[k] == Speaks(steps[k], p)
    ensures OnSince(on, off, j, i) <==> FailedSince(steps, p, at, j, i)
  {
  }

  lemma FailedBy(failed: seq<bool>, steps: seq<Step>, p: Peer, at: nat, i: nat)
    requires |failed| == |steps| + 1 && i < |failed| && !failed[0]
    requires forall k | 0 <= k < |steps| ::
               failed[k + 1] <==> Fails(steps[k], p, at) || (failed[k] && !Speaks(steps[k], p))
    ensures failed[i] <==> exists j | 0 <= j < i :: FailedSince(steps, p, at, j, i)
  {
    var on := seq(|steps|, k requires 0 <= k < |steps| => Fails(steps[k], p, at));
    var off := seq(|steps|, k requires 0 <= k < |steps| => Speaks(steps[k], p));
    Switched(failed, on, off, i);
    forall j | 0 <= j < i ensures OnSince(on, off, j, i) <==> FailedSince(steps, p, at, j, i) {
      SameFailed(steps, p, at, on, off, j, i);
    }
  }

  /** A peer is marked as failed at a time exactly when a dial of it failed then, for another reason than the
      connection limit, and nothing was heard of it since. */
  lemma FailedExactly(ws: seq<World>, steps: seq<Step>, p: Peer, at: nat, i: nat)
    requires Run(ws, steps) && ws[0] == NEW_WORLD && i < |ws|
    ensures Failed(ws[i], p, at) <==> exists j | 0 <= j < i :: FailedSince(steps, p, at, j, i)
  {
    var failed := seq(|ws|, k requires 0 <= k < |ws| => Failed(ws[k], p, at));
    forall k | 0 <= k < |steps|
      ensures failed[k + 1] <==> Fails(steps[k], p, at) || (failed[k] && !Speaks(steps[k], p))
    {
      FailedStep(ws, steps, p, at, k);
    }
    FailedBy(failed, steps, p, at, i);
  }

  /** A dial of the peer failed less than the back-off ago and nothing was heard of the peer since. */
  ghost predicate BackingOff(steps: seq<Step>, p: Peer, now: nat, i: nat)
    requires i <= |steps|
  {
    exists at: nat, j: nat | j < i :: FailedSince(steps, p, at, j, i) && now < at + DIAL_BACK_OFF
  }

  /** Dialling is paused since a connection limit. */
  ghost predicate Halted(steps: seq<Step>, i: nat)
    requires i <= |steps|
  {
    exists j | 0 <= j < i :: HaltedSince(steps, j, i)
  }

  /** What happens to a dial request, told by the events before it: a connected peer is reached at once;
      otherwise the dial is refused within the back-off of the last failure, refused while dialling is
      paused, and started in all other cases. */
  lemma DialsByHistory(ws: seq<World>, steps: seq<Step>, p: Peer, now: nat, i: nat)
    requires Run(ws, steps) && ws[0] == NEW_WORLD && i < |ws|
    ensures var reply, connected := DialReply(ws[i], p, now), p in ws[i].peers && IsConnected(ws[i].peers[p]);
            && (connected <==> reply.Some? && reply.value.Reached?)
            && (reply == Some(Undialable) <==> !connected && BackingOff(steps, p, now, i))
            && (reply == Some(Paused) <==> !connected && !BackingOff(steps, p, now, i) && Halted(steps, i))
            && (reply == None <==> !connected && !BackingOff(steps, p, now, i) && !Halted(steps, i))
  {
    PausedExactly(ws, steps, i);
    var w := ws[i];
    assert BackingOff(steps, p, now, i) <==>
           p in w.peers && w.peers[p].DialFailure? && now < w.peers[p].at + DIAL_BACK_OFF by {
      BackOffIs(ws, steps, p, now, i);
    }
  }

  lemma BackOffIs(ws: seq<World>, steps: seq<Step>, p: Peer, now: nat, i: nat)
    requires Run(ws, steps) && ws[0] == NEW_WORLD && i < |ws|
    ensures BackingOff(steps, p, now, i) <==>
            p in ws[i].peers && ws[i].peers[p].DialFailure? && now < ws[i].peers[p].at + DIAL_BACK_OFF
  {
    if BackingOff(steps, p, now, i) {
      var at: nat, j: nat :| j < i && FailedSince(steps, p, at, j, i) && now < at + DIAL_BACK_OFF;
      FailedExactly(ws, steps, p, at, i);
      assert Failed(ws[i], p, at);
    }
    if p in ws[i].peers && ws[i].peers[p].DialFailure? {
      FailedExactly(ws, steps, p, ws[i].peers[p].at, i);
      assert Failed(ws[i], p, ws[i].peers[p].at);
    }
  }

  /* ---- What poll asks the swarm for ---- */

  /** Which request makes `poll` return what: closing all connections, starting a dial, raising an event, or
      speaking to the handler of one connection. Protection only reaches responsive peers. */
  lemma ActionsAre(w: World, e: OutEvent, now: nat)
    ensures forall p :: ActionFor(w, e, now) == CloseAll(p) <==> e == Disconnect(p)
    ensures forall p :: ActionFor(w, e, now) == StartDial(p) <==>
              e.DialPeer? && e.peer == p && TakeOne(w, e, now).answers == w.answers
    ensures ActionFor(w, e, now) == Emit <==> e == Generate
    ensures forall p, c :: ActionFor(w, e, now) == Notify(p, c) <==>
              || e == SendMessage(p, c)
              || ((e == Protect(p) || e == Unprotect(p)) && p in w.peers && w.peers[p].Responsive? && w.peers[p].conn == c)
  {
  }
}
