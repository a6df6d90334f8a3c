/** Bitswap's network behaviour with its peer and dial tables updated in place. */
module Bitswap {
  import opened PeerModel
  import opened PeerRuns
  import opened Options

  class Behaviour {
    var peers: map<Peer, PeerState>
    var dials: map<Peer, seq<Dial>>
    var paused: bool
    // What was sent to the client and server, and to the callers that asked for a dial.
    var notices: seq<Notice>
    var answers: seq<Answer>
    ghost var taken: map<Sender, Peer>

    ghost function State(): World
      reads this
    {
      World(peers, notices, dials, paused, answers, taken)
    }

    ghost predicate Valid()
      reads this
    {
      Inv(State())
    }

    constructor ()
      ensures State() == NEW_WORLD && Valid()
    {
      peers, dials, paused, notices, answers, taken := map[], map[], false, [], [], map[];
    }

    method SetPeerState(p: Peer, s: PeerState)
      modifies this`peers, this`notices
      ensures State() == SetState(old(State()), p, s)
    {
      if p in peers {
        var before := peers[p];
        if before == s || (before.Connected? && s.Connected?) {
          return;
        }
        peers := if s.Disconnected? then peers - {p} else peers[p := s];
        if s.DialFailure? || s.Disconnected? || s.Unresponsive? {
          if IsConnected(before) {
            notices := notices + [Down(p)];
          }
        } else if s.Responsive? {
          notices := notices + [Up(p)];
        }
      } else {
        if !s.Disconnected? {
          peers := peers[p := s];
        }
        if s.DialFailure? || s.Disconnected? || s.Unresponsive? {
          notices := notices + [Down(p)];
        } else if s.Responsive? {
          notices := notices + [Up(p)];
        }
      }
    }

    /** Removes the pending dials of the peer and answers them one by one, last first. */
    method DrainDials(p: Peer, reply: Reply)
      modifies this`dials, this`answers
      ensures State() == Drain(old(State()), p, reply)
    {
      if p in dials {
        var rest := dials[p];
        dials := dials - {p};
        ghost var before, all := answers, rest;
        while rest != []
          invariant dials == old(dials) - {p}
          invariant before + Popped(all, reply) == answers + Popped(rest, reply)
          decreases |rest|
        {
          var d := rest[|rest| - 1];
          rest := rest[..|rest| - 1];
          answers := answers + [Answer(d.sender, reply)];
        }
        assert answers == before + Popped(all, reply);
      }
    }

    method OnIdentify(p: Peer, protocols: seq<string>)
      requires Valid()
      modifies this
      ensures Valid()
      ensures State() == Handle(old(State()), Identified(p, protocols))
    {
      NextKeeps(State(), Told(Identified(p, protocols)));
      if p in peers && peers[p].Connected? {
        var best := Best(protocols);
        if best.Some? {
          SetPeerState(p, Responsive(peers[p].conn, best.value));
        }
      }
    }

    method InjectConnectionEstablished(p: Peer, conn: Conn)
      requires Valid()
      modifies this
      ensures Valid()
      ensures State() == Handle(old(State()), Established(p, conn))
    {
      NextKeeps(State(), Told(Established(p, conn)));
      SetPeerState(p, Connected(conn));
      paused := false;
    }

    method InjectConnectionClosed(p: Peer, remaining: nat)
      requires Valid()
      modifies this
      ensures Valid()
      ensures State() == Handle(old(State()), ConnectionClosed(p, remaining))
    {
      NextKeeps(State(), Told(ConnectionClosed(p, remaining)));
      paused := false;
      if remaining == 0 {
        SetPeerState(p, Disconnected);
      }
    }

    method InjectDialFailure(peer: Option<Peer>, limitReached: bool, now: nat)
      requires Valid()
      modifies this
      ensures Valid()
      ensures State() == Handle(old(State()),
                                if peer.Some? then DialFailed(peer.value, limitReached, now) else DialFailedUnknown)
    {
      NextKeeps(State(), Told(if peer.Some? then DialFailed(peer.value, limitReached, now) else DialFailedUnknown));
      if peer.Some? {
        if limitReached {
          paused := true;
          SetPeerState(peer.value, Disconnected);
        } else {
          SetPeerState(peer.value, DialFailure(now));
        }
        DrainDials(peer.value, DialError);
      }
    }

    /** The four handler events. */
    method InjectEvent(e: Event)
      requires Valid()
      requires e.HandlerConnected? || e.ProtocolNotSupported? || e.Message? || e.SendFailed?
      modifies this
      ensures Valid()
      ensures State() == Handle(old(State()), e)
    {
      NextKeeps(State(), Told(e));
      match e
      case HandlerConnected(p, conn, protocol) =>
        SetPeerState(p, Responsive(conn, protocol));
        DrainDials(p, Reached(conn, Some(protocol)));
      case ProtocolNotSupported(p) =>
        SetPeerState(p, Unresponsive);
        DrainDials(p, NotSupported);
      case Message(p, conn, protocol) =>
        SetPeerState(p, Responsive(conn, protocol));
      case SendFailed(_) =>
    }

    /** The `Dial` arm of `poll`; true when the caller has to start a dial. */
    method Dial(p: Peer, id: nat, sender: Sender, now: nat) returns (start: bool)
      requires Valid() && sender !in taken
      modifies this
      ensures Valid()
      ensures State() == TakeDial(old(State()), p, id, sender, now)
      ensures start <==> DialReply(old(State()), p, now).None?
    {
      TookKeeps(State(), DialPeer(p, id, sender), now);
      start := DialNow(p, id, sender, now);
    }

    /** The body of the `Dial` arm. */
    method DialNow(p: Peer, id: nat, sender: Sender, now: nat) returns (start: bool)
      modifies this
      ensures State() == TakeDial(old(State()), p, id, sender, now)
      ensures start <==> DialReply(old(State()), p, now).None?
    {
      taken := taken[sender := p];
      var reply: Reply;
      if p in peers && peers[p].Responsive? {
        reply := Reached(peers[p].conn, Some(peers[p].protocol));
      } else if p in peers && peers[p].Connected? {
        reply := Reached(peers[p].conn, None);
      } else if p in peers && peers[p].DialFailure? && now < peers[p].at + DIAL_BACK_OFF {
        reply := Undialable;
      } else if paused {
        reply := Paused;
      } else {
        dials := dials[p := PendingFor(dials, p) + [PeerModel.Dial(id, sender)]];
        return true;
      }
      answers := answers + [Answer(sender, reply)];
      start := false;
    }

    /** One event from the network: the match of `poll`. */
    method TakeNow(e: OutEvent, now: nat) returns (action: Action)
      modifies this
      ensures State() == TakeOne(old(State()), e, now) && action == ActionFor(old(State()), e, now)
    {
      match e
      case Disconnect(p) => action := CloseAll(p);
      case DialPeer(p, id, sender) =>
        var start := DialNow(p, id, sender, now);
        action := if start then StartDial(p) else Pending;
      case Generate => action := Emit;
      case SendMessage(p, conn) => action := Notify(p, conn);
      case Protect(p) => action := if p in peers && peers[p].Responsive? then Notify(p, peers[p].conn) else Pending;
      case Unprotect(p) => action := if p in peers && peers[p].Responsive? then Notify(p, peers[p].conn) else Pending;
    }

    /** Takes events from the network until one yields an action, at most 50. */
    method Poll(inbox: seq<OutEvent>, now: nat) returns (action: Action, n: nat)
      requires Valid() && OwnSenders(taken, inbox, 0)
      modifies this
      ensures Valid()
      ensures (State(), action, n) == Polled(old(State()), inbox, now, 0)
    {
      PolledKeeps(State(), inbox, now, 0);
      action, n := PollNow(inbox, now);
    }

    /** The body of `poll`. */
    method PollNow(inbox: seq<OutEvent>, now: nat) returns (action: Action, n: nat)
      modifies this
      ensures (State(), action, n) == Polled(old(State()), inbox, now, 0)
    {
      n := 0;
      while n < POLL_LIMIT && n < |inbox|
        invariant n <= |inbox| && n <= POLL_LIMIT
        invariant Polled(old(State()), inbox, now, 0) == Polled(State(), inbox, now, n)
      {
        action := TakeNow(inbox[n], now);
        n := n + 1;
        if !action.Pending? {
          return;
        }
      }
      action := Pending;
    }
  }
}
