/** The joint system: one receiver, any number of sessions, each with this program's sender or
    with a foreign peer, over channels that may be cut at any time. */
module Transfers {
  import opened Bytes
  import opened Payloads
  import opened Files
  import opened Channels
  import opened Sending
  import opened Receiving
  import opened Trust

  datatype Peer = Own(sender: Sender) | Foreign

  datatype Decision = Undecided | Accepted | Rejected(reason: Byte)

  /** A session: the peer and its certificate, the two channels, and the log of what the receiver
      did in it: the offer raised, the user's decision, the data bytes stored, the acknowledgement
      sent and the completion reports. */
  datatype Session = Session(peer: Peer, certificate: Option<Digest>, up: Channel, down: Channel,
                             id: u64, raised: Option<Offer>, decision: Decision, received: Text,
                             acked: Option<bool>, reports: seq<Report>)

  /** While the receiver is not listening, it serves the last session. */
  datatype World = World(receiver: Receiver, gate: Gate, sessions: seq<Session>)

  datatype Action =
    | Dial(peer: Peer, certificate: Option<Digest>)
    | AcceptFails
    | SenderAct(i: nat, event: Event)
    | ReceiverAct(revent: REvent)
    | DeliverUp(i: nat, k: nat)
    | DeliverDown(i: nat, k: nat)
    | Disconnect(i: nat)
    | ForeignWrite(i: nat, bytes: Text)
    | UserTrusts
    | UserIgnores

  function NewSession(peer: Peer, certificate: Option<Digest>): Session {
    Session(peer, certificate, FRESH, FRESH, 0, None, Undecided, [], None, [])
  }

  /** A sender of this program when its connection has just been made. */
  predicate FreshPeer(sha: Hash, peer: Peer) {
    peer.Own? ==>
      && peer.sender == Initial(peer.sender.job).(phase := Sending.Handshaking)
      && peer.sender.job.digest == sha(peer.sender.job.content)
  }

  // ------------------------------------------------------------------ sender callbacks

  predicate SenderEnabled(s: Session, e: Event) {
    && s.peer.Own? && s.down.Valid()
    && Sane(s.peer.sender) && Ready(s.peer.sender, e)
    && match e
       case Connected(_) => false
       case Shaken(_) => true
       case Written(ok) => ok || !s.up.live
       case ReadFailed => s.down.ReadFails(Wanted(s.peer.sender.phase).value)
       case Got(data) => s.down.CanRead(|data|) && data == s.down.Front(|data|)
  }

  function SenderApply(s: Session, e: Event): Session
    requires SenderEnabled(s, e)
  {
    var o := Step(s.peer.sender, e);
    s.(peer := Own(o.sender), up := s.up.Write(o.out), down := if e.Got? then s.down.Take(|e.data|) else s.down)
  }

  // ------------------------------------------------------------------ receiver callbacks

  /** The certificate check that the receiver makes when an offer has arrived. */
  function Trusted(g: Gate, s: Session): bool { Known(g, s.certificate) }

  predicate ReceiverEnabled(r: Receiver, g: Gate, s: Session, e: REvent) {
    && s.up.Valid() && RSane(r) && RReady(r, e)
    && match e
       case Incoming(_) => false
       case RShaken(_) => true
       case UserAccepts => true
       case UserRejects(_) => true
       case RWritten(ok, _) => ok || !s.down.live
       case RReadFailed => s.up.ReadFails(RWanted(r.phase).value)
       case RGot(data, trusted) => s.up.CanRead(|data|) && data == s.up.Front(|data|) && trusted == Trusted(g, s)
  }

  /** The log entries that a callback adds to its session. */
  function Record(s: Session, r: Receiver, e: REvent, o: ROutcome): Session {
    var s1 := if r.phase.AwaitOffer? then s.(id := o.receiver.sessionId) else s;
    var s2 := if o.receiver.phase.Deciding? then s1.(raised := Some(o.receiver.offer)) else s1;
    var s3 := match e
              case UserAccepts => s2.(decision := Accepted)
              case UserRejects(reason) => s2.(decision := Rejected(reason))
              case RGot(data, _) => if r.phase.AwaitChunkPayload? then s2.(received := s2.received + data) else s2
              case _ => s2;
    match o.report
    case None => s3
    case Some(p) => s3.(reports := s3.reports + [p], acked := if o.out == [] then s3.acked else Some(p.ok))
  }

  function ReceiverApply(sha: Hash, r: Receiver, g: Gate, s: Session, e: REvent): Session
    requires ReceiverEnabled(r, g, s, e)
  {
    var o := RStep(sha, r, e);
    var up := if e.RGot? then s.up.Take(|e.data|) else s.up;
    var down := s.down.Write(o.out);
    Record(s, r, e, o).(up := if o.hangUp then up.Cut() else up, down := if o.hangUp then down.Close() else down)
  }

  // ------------------------------------------------------------------ the transition system

  predicate Enabled(sha: Hash, w: World, a: Action) {
    var n := |w.sessions|;
    match a
    case Dial(peer, _) => w.receiver.phase.Listening? && RSane(w.receiver) && FreshPeer(sha, peer)
    case AcceptFails => w.receiver.phase.Listening? && RSane(w.receiver)
    case SenderAct(i, e) => i < n && SenderEnabled(w.sessions[i], e)
    case ReceiverAct(e) =>
      && n > 0 && !w.receiver.phase.Listening?
      && ReceiverEnabled(w.receiver, w.gate, w.sessions[n - 1], e)
    case DeliverUp(i, k) => i < n && w.sessions[i].up.CanDeliver(k)
    case DeliverDown(i, k) => i < n && w.sessions[i].down.CanDeliver(k)
    case Disconnect(i) => i < n
    case ForeignWrite(i, _) => i < n && w.sessions[i].peer.Foreign?
    case UserTrusts => true
    case UserIgnores => true
  }

  /** The trust check happens inside the callback that completes the offer. */
  function GateAfter(w: World, e: REvent): Gate
    requires w.sessions != []
  {
    if e.RGot? && w.receiver.phase.AwaitOfferPayload? && ParseOffer(e.data).Some?
    then GateStep(w.gate, Validate(w.sessions[|w.sessions| - 1].certificate, ParseOffer(e.data).value.deviceName))
    else w.gate
  }

  function Apply(sha: Hash, w: World, a: Action): World
    requires Enabled(sha, w, a)
  {
    var ss, n := w.sessions, |w.sessions|;
    match a
    case Dial(peer, certificate) =>
      World(RStep(sha, w.receiver, Incoming(true)).receiver, w.gate, ss + [NewSession(peer, certificate)])
    case AcceptFails => w.(receiver := RStep(sha, w.receiver, Incoming(false)).receiver)
    case SenderAct(i, e) => w.(sessions := ss[i := SenderApply(ss[i], e)])
    case ReceiverAct(e) =>
      World(RStep(sha, w.receiver, e).receiver, GateAfter(w, e),
            ss[n - 1 := ReceiverApply(sha, w.receiver, w.gate, ss[n - 1], e)])
    case DeliverUp(i, k) => w.(sessions := ss[i := ss[i].(up := ss[i].up.Deliver(k))])
    case DeliverDown(i, k) => w.(sessions := ss[i := ss[i].(down := ss[i].down.Deliver(k))])
    case Disconnect(i) => w.(sessions := ss[i := ss[i].(up := ss[i].up.Cut(), down := ss[i].down.Cut())])
    case ForeignWrite(i, bytes) => w.(sessions := ss[i := ss[i].(up := ss[i].up.Write(bytes))])
    case UserTrusts => w.(gate := GateStep(w.gate, TrustPending))
    case UserIgnores => w.(gate := GateStep(w.gate, IgnorePending))
  }

  /** A listening receiver over folder `disk`, with no session yet. */
  predicate Start(disk: map<Text, Text>, w: World) {
    && w.receiver.phase.Listening? && !w.receiver.fileOpen && w.receiver.bytesSent == 0
    && w.receiver.files == disk
    && !w.gate.pending && w.sessions == []
  }

  ghost predicate IsRun(sha: Hash, run: seq<World>, actions: seq<Action>) {
    && |run| == |actions| + 1
    && forall k :: 0 <= k < |actions| ==> Enabled(sha, run[k], actions[k]) && run[k + 1] == Apply(sha, run[k], actions[k])
  }

  /** Some run from a start over `disk` ends in `w`. */
  ghost predicate Reachable(sha: Hash, disk: map<Text, Text>, w: World) {
    exists run, actions :: IsRun(sha, run, actions) && Start(disk, run[0]) && run[|run| - 1] == w
  }
}
