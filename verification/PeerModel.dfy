/** Bitswap's per-peer connection state, its connect and disconnect notifications, and its table of
    pending dials, as values. */
module PeerModel {
  import opened Options

  type Peer = nat
  type Conn = nat
  type Sender = nat

  /** Seconds before a peer that could not be dialled is tried again. */
  const DIAL_BACK_OFF: nat := 600

  /** Events taken from the network in one call of `poll`. */
  const POLL_LIMIT: nat := 50

  datatype ProtocolId = Legacy | Bitswap100 | Bitswap110 | Bitswap120

  function Rank(p: ProtocolId): nat {
    match p case Legacy => 0 case Bitswap100 => 1 case Bitswap110 => 2 case Bitswap120 => 3
  }

  function FromName(name: string): Option<ProtocolId> {
    if name == "/ipfs/bitswap" then Some(Legacy)
    else if name == "/ipfs/bitswap/1.0.0" then Some(Bitswap100)
    else if name == "/ipfs/bitswap/1.1.0" then Some(Bitswap110)
    else if name == "/ipfs/bitswap/1.2.0" then Some(Bitswap120)
    else None
  }

  /** `protocol_name` */
  function NameOf(p: ProtocolId): string {
    match p
    case Legacy => "/ipfs/bitswap"
    case Bitswap100 => "/ipfs/bitswap/1.0.0"
    case Bitswap110 => "/ipfs/bitswap/1.1.0"
    case Bitswap120 => "/ipfs/bitswap/1.2.0"
  }

  /** A name stands for the protocol that announces it, and every other name for none. */
  lemma NamesIdentify(name: string, p: ProtocolId)
    ensures FromName(name) == Some(p) <==> name == NameOf(p)
  {
    assert "/ipfs/bitswap/1.0.0"[16] != "/ipfs/bitswap/1.1.0"[16];
    assert "/ipfs/bitswap/1.2.0"[16] != "/ipfs/bitswap/1.1.0"[16];
    assert "/ipfs/bitswap/1.0.0"[16] != "/ipfs/bitswap/1.2.0"[16];
  }

  /** The newest bitswap protocol among the names a peer announces. */
  function Best(names: seq<string>): (best: Option<ProtocolId>)
    ensures best.Some? <==> exists i | 0 <= i < |names| :: FromName(names[i]).Some?
    ensures best.Some? ==> exists i | 0 <= i < |names| :: FromName(names[i]) == best
    ensures forall i | 0 <= i < |names| && FromName(names[i]).Some? ::
              best.Some? && Rank(FromName(names[i]).value) <= Rank(best.value)
  {
    if names == [] then None
    else
      var n := |names| - 1;
      var before, last := Best(names[..n]), FromName(names[n]);
      assert forall i | 0 <= i < n :: names[..n][i] == names[i];
      if last.None? then before
      else if before.None? || Rank(before.value) <= Rank(last.value) then last
      else before
  }

  datatype PeerState =
    | Connected(conn: Conn)
    | Responsive(conn: Conn, protocol: ProtocolId)
    | Unresponsive
    | Disconnected
    | DialFailure(at: nat)

  predicate IsConnected(s: PeerState) {
    s.Connected? || s.Responsive?
  }

  datatype Notice = Up(peer: Peer) | Down(peer: Peer)

  datatype Reply = Reached(conn: Conn, protocol: Option<ProtocolId>) | DialError | NotSupported | Undialable | Paused

  datatype Dial = Dial(id: nat, sender: Sender)

  datatype Answer = Answer(sender: Sender, reply: Reply)

  /** `notices` is everything sent to the client and server about peers; `answers` every reply to a
      dial request; `taken` which peer each dial request taken from the network was for. */
  datatype World = World(peers: map<Peer, PeerState>, notices: seq<Notice>,
                         dials: map<Peer, seq<Dial>>, paused: bool,
                         answers: seq<Answer>, taken: map<Sender, Peer>)

  const NEW_WORLD := World(map[], [], map[], false, [], map[])

  /** `set_peer_state` */
  function SetState(w: World, p: Peer, s: PeerState): World {
    if p in w.peers then
      var before := w.peers[p];
      if before == s || (before.Connected? && s.Connected?) then w
      else
        var v := w.(peers := if s.Disconnected? then w.peers - {p} else w.peers[p := s]);
        match s
        case DialFailure(_) => if IsConnected(before) then v.(notices := v.notices + [Down(p)]) else v
        case Disconnected => if IsConnected(before) then v.(notices := v.notices + [Down(p)]) else v
        case Unresponsive => if IsConnected(before) then v.(notices := v.notices + [Down(p)]) else v
        case Connected(_) => v
        case Responsive(_, _) => v.(notices := v.notices + [Up(p)])
    else
      var v := if s.Disconnected? then w else w.(peers := w.peers[p := s]);
      match s
      case DialFailure(_) => v.(notices := v.notices + [Down(p)])
      case Disconnected => v.(notices := v.notices + [Down(p)])
      case Unresponsive => v.(notices := v.notices + [Down(p)])
      case Connected(_) => v
      case Responsive(_, _) => v.(notices := v.notices + [Up(p)])
  }

  /** The replies to pending dials in the order they are popped, last first. */
  function Popped(dials: seq<Dial>, reply: Reply): seq<Answer> {
    if dials == [] then []
    else [Answer(dials[|dials| - 1].sender, reply)] + Popped(dials[..|dials| - 1], reply)
  }

  /** Answers all pending dials of the peer with the same reply. */
  function Drain(w: World, p: Peer, reply: Reply): World {
    if p in w.dials then w.(dials := w.dials - {p}, answers := w.answers + Popped(w.dials[p], reply)) else w
  }

  datatype Event =
    | Established(peer: Peer, conn: Conn)
    | ConnectionClosed(peer: Peer, remaining: nat)
    | DialFailed(peer: Peer, limitReached: bool, now: nat)
    | DialFailedUnknown
    | HandlerConnected(peer: Peer, conn: Conn, protocol: ProtocolId)
    | ProtocolNotSupported(peer: Peer)
    | Message(peer: Peer, conn: Conn, protocol: ProtocolId)
    | SendFailed(peer: Peer)
    | Identified(peer: Peer, protocols: seq<string>)

  /** The state that an event asks `set_peer_state` for. */
  function Requested(peers: map<Peer, PeerState>, e: Event): (s: Option<PeerState>)
    ensures s.Some? ==> !e.DialFailedUnknown?
  {
    match e
    case Established(_, conn) => Some(Connected(conn))
    case ConnectionClosed(_, remaining) => if remaining == 0 then Some(Disconnected) else None
    case DialFailed(_, limitReached, now) => Some(if limitReached then Disconnected else DialFailure(now))
    case HandlerConnected(_, conn, protocol) => Some(Responsive(conn, protocol))
    case ProtocolNotSupported(_) => Some(Unresponsive)
    case Message(_, conn, protocol) => Some(Responsive(conn, protocol))
    case Identified(p, names) =>
      if p in peers && peers[p].Connected? && Best(names).Some?
      then Some(Responsive(peers[p].conn, Best(names).value)) else None
    case _ => None
  }

  /** The reply with which an event settles the pending dials of its peer. */
  function DrainReply(e: Event): (r: Option<Reply>)
    ensures r.Some? ==> !e.DialFailedUnknown?
  {
    match e
    case DialFailed(_, _, _) => Some(DialError)
    case HandlerConnected(_, conn, protocol) => Some(Reached(conn, Some(protocol)))
    case ProtocolNotSupported(_) => Some(NotSupported)
    case _ => None
  }

  /** Reaching the connection limit pauses dialling until a connection comes or goes. */
  predicate PausedAfter(paused: bool, e: Event) {
    if e.Established? || e.ConnectionClosed? then false else paused || (e.DialFailed? && e.limitReached)
  }

  /** What the swarm, the handlers and identify tell the behaviour: at most one change of the peer's state,
      and then at most one reply to all its pending dials. */
  function Handle(w: World, e: Event): World {
    var s, reply := Requested(w.peers, e), DrainReply(e);
    var v := w.(paused := PausedAfter(w.paused, e));
    var t := if s.Some? then SetState(v, e.peer, s.value) else v;
    if reply.Some? then Drain(t, e.peer, reply.value) else t
  }

  /* ---- Requests from the network: `poll` ---- */

  datatype OutEvent =
    | Disconnect(peer: Peer)
    | DialPeer(peer: Peer, id: nat, sender: Sender)
    | Generate
    | SendMessage(peer: Peer, conn: Conn)
    | Protect(peer: Peer)
    | Unprotect(peer: Peer)

  datatype Action = Pending | CloseAll(peer: Peer) | StartDial(peer: Peer) | Emit | Notify(peer: Peer, conn: Conn)

  /** Takes one dial request: the reply that is given at once, or none if a dial is started. */
  function DialReply(w: World, p: Peer, now: nat): Option<Reply> {
    if p in w.peers && w.peers[p].Responsive? then Some(Reached(w.peers[p].conn, Some(w.peers[p].protocol)))
    else if p in w.peers && w.peers[p].Connected? then Some(Reached(w.peers[p].conn, None))
    else if p in w.peers && w.peers[p].DialFailure? && now < w.peers[p].at + DIAL_BACK_OFF then Some(Undialable)
    else if w.paused then Some(Paused)
    else None
  }

  function PendingFor(dials: map<Peer, seq<Dial>>, p: Peer): seq<Dial> {
    if p in dials then dials[p] else []
  }

  function TakeDial(w: World, p: Peer, id: nat, sender: Sender, now: nat): World {
    var v := w.(taken := w.taken[sender := p]);
    var reply := DialReply(w, p, now);
    if reply.Some? then v.(answers := v.answers + [Answer(sender, reply.value)])
    else v.(dials := v.dials[p := PendingFor(w.dials, p) + [Dial(id, sender)]])
  }

  function TakeOne(w: World, e: OutEvent, now: nat): World {
    match e
    case DialPeer(p, id, sender) => TakeDial(w, p, id, sender, now)
    case _ => w
  }

  /** What `poll` returns after the event; `Pending` means it goes on to the next one. */
  function ActionFor(w: World, e: OutEvent, now: nat): Action {
    match e
    case Disconnect(p) => CloseAll(p)
    case DialPeer(p, _, _) => if DialReply(w, p, now).None? then StartDial(p) else Pending
    case Generate => Emit
    case SendMessage(p, conn) => Notify(p, conn)
    case Protect(p) => if p in w.peers && w.peers[p].Responsive? then Notify(p, w.peers[p].conn) else Pending
    case Unprotect(p) => if p in w.peers && w.peers[p].Responsive? then Notify(p, w.peers[p].conn) else Pending
  }

  /** The rest of `poll` after `n` events: the state, the action returned and how many events were taken
      in all, at most the limit. */
  function Polled(w: World, inbox: seq<OutEvent>, now: nat, n: nat): (World, Action, nat)
    requires n <= |inbox| && n <= POLL_LIMIT
    decreases POLL_LIMIT - n
  {
    if n == POLL_LIMIT || n == |inbox| then (w, Pending, n)
    else
      var v, action := TakeOne(w, inbox[n], now), ActionFor(w, inbox[n], now);
      if action.Pending? then Polled(v, inbox, now, n + 1) else (v, action, n + 1)
  }
}
