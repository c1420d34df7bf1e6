/** What holds of the joint system in every run. */
module TransferSafety {
  import opened Bytes
  import opened Header
  import opened Payloads
  import opened Framing
  import opened Files
  import opened Sending
  import opened Receiving
  import opened Trust
  import opened Transfers
  import opened SessionInvariant
  import opened ReceiverInvariant

  // ------------------------------------------------------------------ accounts over sessions

  /** The file that a session left in the folder, if it succeeded. */
  function Contribution(s: Session): map<Text, Text> {
    if s.acked == Some(true) && s.reports != [] then map[s.reports[0].path := s.received] else map[]
  }

  function Added(sessions: seq<Session>): map<Text, Text> {
    if sessions == [] then map[] else
    Added(sessions[..|sessions| - 1]) + Contribution(sessions[|sessions| - 1])
  }

  /** No successful session reused a name of the folder or of an earlier session. */
  predicate FreshNames(disk: map<Text, Text>, sessions: seq<Session>) {
    sessions == [] ||
    var front := sessions[..|sessions| - 1];
    && FreshNames(disk, front)
    && Contribution(sessions[|sessions| - 1]).Keys !! (disk + Added(front)).Keys
  }

  function TotalReceived(sessions: seq<Session>): nat {
    if sessions == [] then 0 else
    TotalReceived(sessions[..|sessions| - 1]) + |sessions[|sessions| - 1].received|
  }

  lemma {:induction false} AccountsSame(disk: map<Text, Text>, ss: seq<Session>, i: nat, t: Session)
    requires i < |ss| && Contribution(t) == Contribution(ss[i]) && |t.received| == |ss[i].received|
    ensures Added(ss[i := t]) == Added(ss)
    ensures FreshNames(disk, ss[i := t]) == FreshNames(disk, ss)
    ensures TotalReceived(ss[i := t]) == TotalReceived(ss)
    decreases |ss|
  {
    hide Contribution;
    var n := |ss| - 1;
    if i < n {
      assert ss[i := t][..n] == ss[..n][i := t];
      AccountsSame(disk, ss[..n], i, t);
    } else {
      assert ss[i := t][..n] == ss[..n];
    }
  }

  lemma AccountsLast(disk: map<Text, Text>, front: seq<Session>, s: Session)
    ensures Added(front + [s]) == Added(front) + Contribution(s)
    ensures FreshNames(disk, front + [s]) <==>
              FreshNames(disk, front) && Contribution(s).Keys !! (disk + Added(front)).Keys
    ensures TotalReceived(front + [s]) == TotalReceived(front) + |s.received|
  {
    hide Contribution;
    assert (front + [s])[..|front|] == front;
  }

  /** A successful session's file is in the folder with the bytes that the session stored. */
  lemma {:induction false} AddedHas(disk: map<Text, Text>, ss: seq<Session>, i: nat)
    requires i < |ss| && FreshNames(disk, ss) && ss[i].acked == Some(true) && ss[i].reports != []
    ensures var p := ss[i].reports[0].path;
            p !in disk && p in Added(ss) && Added(ss)[p] == ss[i].received
    decreases |ss|
  {
    var n := |ss| - 1;
    if i == n {
    } else {
      AddedHas(disk, ss[..n], i);
    }
  }

  /** Every added file comes from a successful session. */
  lemma {:induction false} AddedFrom(ss: seq<Session>, p: Text) returns (i: nat)
    requires p in Added(ss)
    ensures i < |ss| && ss[i].acked == Some(true) && ss[i].reports != [] && ss[i].reports[0].path == p
    ensures Added(ss)[p] == ss[i].received
    decreases |ss|
  {
    var n := |ss| - 1;
    if p in Contribution(ss[n]) {
      i := n;
    } else {
      i := AddedFrom(ss[..n], p);
    }
  }

  /** One receiver callback in the books: the folder and the byte counter move exactly as the
      session's log does. */
  lemma ReceiverAccounts(sha: Hash, r: Receiver, g: Gate, s: Session, e: REvent)
    requires Link(r, s) && ReceiverEnabled(r, g, s, e) && !r.phase.Listening?
    ensures var o, t := RStep(sha, r, e), ReceiverApply(sha, r, g, s, e);
            && Contribution(s) == map[]
            && Settled(o.receiver) == Settled(r) + Contribution(t)
            && Contribution(t).Keys !! Settled(r).Keys
            && o.receiver.bytesSent == (r.bytesSent + |t.received| - |s.received|) % U64_LIMIT
            && |t.received| >= |s.received|
  {
    hide Link, ReceiverEnabled, RStep, Settled, ReceiverApply;
    ReceiverLogs(sha, r, g, s, e);
    ReceiverCounts(sha, r, g, s, e);
    SettledGrows(sha, r, e);
    var m: map<Text, Text> := map[];
    assert Settled(r) + m == Settled(r);
  }

  /** A callback logs success exactly when it reports it. */
  lemma ReceiverLogs(sha: Hash, r: Receiver, g: Gate, s: Session, e: REvent)
    requires Link(r, s) && ReceiverEnabled(r, g, s, e) && !r.phase.Listening?
    ensures RSane(r) && RReady(r, e)
    ensures var o, t := RStep(sha, r, e), ReceiverApply(sha, r, g, s, e);
            && s.acked.None? && s.reports == []
            && (r.fileOpen ==> r.filePath in r.files && r.files[r.filePath] == s.received)
            && (if o.report.Some? && o.report.value.ok
                then t.acked == Some(true) && t.reports == [o.report.value] && t.received == s.received
                else t.acked != Some(true))
  {
    hide ParseHeader, ParseOffer, FrameBytes, OwnLink, ResolvedName, AckFrame, AcceptFrame, RejectFrame;
  }

  /** A callback counts the bytes that it stores. */
  lemma ReceiverCounts(sha: Hash, r: Receiver, g: Gate, s: Session, e: REvent)
    requires ReceiverEnabled(r, g, s, e)
    ensures var o, t := RStep(sha, r, e), ReceiverApply(sha, r, g, s, e);
            && t.received == s.received + (if e.RGot? && r.phase.AwaitChunkPayload? then e.data else [])
            && o.receiver.bytesSent == (r.bytesSent + |t.received| - |s.received|) % U64_LIMIT
  {
    hide ParseHeader, ParseOffer, FrameBytes, ResolvedName, AckFrame, AcceptFrame, RejectFrame;
  }

  // ------------------------------------------------------------------ the invariant

  ghost predicate WorldInv(sha: Hash, disk: map<Text, Text>, w: World) {
    var r, ss := w.receiver, w.sessions;
    && RSane(r)
    && (forall i :: 0 <= i < |ss| ==> SessionInv(sha, ss[i]))
    && (!r.phase.Listening? ==> ss != [] && Link(r, ss[|ss| - 1]))
    && (forall i :: 0 <= i < |ss| && (i < |ss| - 1 || r.phase.Listening?) ==> ss[i].down.closed)
    && FreshNames(disk, ss)
    && Settled(r) == disk + Added(ss)
    && r.bytesSent == TotalReceived(ss) % U64_LIMIT
    && GateInv(w.gate)
    && (forall i :: 0 <= i < |ss| && ss[i].raised.Some? ==> Known(w.gate, ss[i].certificate))
  }

  lemma StartInv(sha: Hash, disk: map<Text, Text>, w: World)
    requires Start(disk, w)
    ensures WorldInv(sha, disk, w)
  {
  }

  lemma NewSessionInv(sha: Hash, peer: Peer, certificate: Option<Digest>, r: Receiver)
    requires FreshPeer(sha, peer) && r.phase.Greeting?
    ensures SessionInv(sha, NewSession(peer, certificate)) && Link(r, NewSession(peer, certificate))
    ensures Contribution(NewSession(peer, certificate)) == map[]
  {
    hide FrameBytes, Script, Rest;
  }

  lemma DialKeeps(sha: Hash, disk: map<Text, Text>, w: World, peer: Peer, certificate: Option<Digest>)
    requires WorldInv(sha, disk, w) && Enabled(sha, w, Dial(peer, certificate))
    ensures WorldInv(sha, disk, Apply(sha, w, Dial(peer, certificate)))
  {
    hide SessionInv, Link, FreshNames, Added, TotalReceived, Contribution, FreshPeer, Known;
    var s := NewSession(peer, certificate);
    var v := Apply(sha, w, Dial(peer, certificate));
    NewSessionInv(sha, peer, certificate, v.receiver);
    AccountsLast(disk, w.sessions, s);
    assert Added(w.sessions) + map[] == Added(w.sessions);
  }

  /** A change of one session that its log does not see. */
  lemma QuietKeeps(sha: Hash, disk: map<Text, Text>, w: World, i: nat, t: Session)
    requires WorldInv(sha, disk, w) && i < |w.sessions|
    requires SameLog(w.sessions[i], t) && SessionInv(sha, t)
    ensures WorldInv(sha, disk, w.(sessions := w.sessions[i := t]))
  {
    hide SessionInv, Link, FreshNames, Added, TotalReceived, Known, Settled;
    AccountsSame(disk, w.sessions, i, t);
    LinkSurvives(w.receiver, w.sessions[i], t);
  }

  lemma NetworkKeeps(sha: Hash, s: Session, t: Session)
    requires SessionInv(sha, s) && SameLog(s, t) && t.peer == s.peer && t.down.read == s.down.read
    requires t.up.written == s.up.written || (s.peer.Foreign? && s.up.written <= t.up.written)
    requires t.up.Valid() && t.down.Valid() && (t.down.live ==> s.down.live)
    ensures SessionInv(sha, t)
  {
    hide FrameBytes, Script, Rest, OfferOf, OfferFrame, ReplyScript;
  }

  lemma LastAccount(disk: map<Text, Text>, front: seq<Session>, s: Session, t: Session)
    requires FreshNames(disk, front + [s]) && Contribution(s) == map[]
    requires Contribution(t).Keys !! (disk + Added(front + [s])).Keys
    ensures FreshNames(disk, front + [t])
    ensures disk + Added(front + [t]) == (disk + Added(front + [s])) + Contribution(t)
    ensures TotalReceived(front + [t]) == TotalReceived(front + [s]) + |t.received| - |s.received|
  {
    hide FreshNames, Added, TotalReceived, Contribution;
    AccountsLast(disk, front, s);
    AccountsLast(disk, front, t);
    assert Added(front) + map[] == Added(front);
    assert (disk + Added(front)) + Contribution(t) == disk + (Added(front) + Contribution(t));
  }

  /** The last session moves on together with the folder, the byte counter and the gate. */
  lemma Rebook(sha: Hash, disk: map<Text, Text>, w: World, v: World, front: seq<Session>, s: Session, t: Session)
    requires WorldInv(sha, disk, w) && w.sessions == front + [s] && v.sessions == front + [t]
    requires RSane(v.receiver) && Kept(sha, v.receiver, t)
    requires v.receiver.phase.Listening? ==> t.down.closed
    requires Contribution(s) == map[] && Settled(v.receiver) == Settled(w.receiver) + Contribution(t)
    requires Contribution(t).Keys !! Settled(w.receiver).Keys && |t.received| >= |s.received|
    requires v.receiver.bytesSent == (w.receiver.bytesSent + |t.received| - |s.received|) % U64_LIMIT
    requires GateInv(v.gate) && v.gate.store == w.gate.store
    requires t.certificate == s.certificate && (t.raised != s.raised ==> Known(w.gate, s.certificate))
    ensures WorldInv(sha, disk, v)
  {
    hide SessionInv, Link, FreshNames, Added, TotalReceived, Contribution, Settled, GateInv, Fingerprint;
    LastAccount(disk, front, s, t);
    Accumulate(TotalReceived(w.sessions), |t.received| - |s.received|);
    forall i | 0 <= i < |v.sessions|
      ensures SessionInv(sha, v.sessions[i])
      ensures v.sessions[i].raised.Some? ==> Known(v.gate, v.sessions[i].certificate)
      ensures i < |front| || v.receiver.phase.Listening? ==> v.sessions[i].down.closed
    {
      assert i < |front| ==> v.sessions[i] == w.sessions[i];
      assert s == w.sessions[|front|];
    }
  }

  lemma ReceiverActKeeps(sha: Hash, disk: map<Text, Text>, w: World, e: REvent)
    requires WorldInv(sha, disk, w) && Enabled(sha, w, ReceiverAct(e))
    ensures WorldInv(sha, disk, Apply(sha, w, ReceiverAct(e)))
  {
    hide SessionInv, Link, FreshNames, Added, TotalReceived, Contribution, Known, Settled, ReceiverApply, GateAfter,
         ReceiverEnabled, RStep, Kept;
    var n := |w.sessions| - 1;
    var front, s := w.sessions[..n], w.sessions[n];
    var t := ReceiverApply(sha, w.receiver, w.gate, s, e);
    var v := Apply(sha, w, ReceiverAct(e));
    ReceiverKeeps(sha, w.receiver, w.gate, s, e);
    ReceiverAccounts(sha, w.receiver, w.gate, s, e);
    ListeningHangsUp(sha, w.receiver, w.gate, s, e);
    RaisesOnlyTrusted(sha, w, e);
    Rebook(sha, disk, w, v, front, s, t);
  }

  lemma Accumulate(total: nat, more: nat)
    ensures (total % U64_LIMIT + more) % U64_LIMIT == (total + more) % U64_LIMIT
  {
    QuotientUnique(total + more, U64_LIMIT, total / U64_LIMIT + (total % U64_LIMIT + more) / U64_LIMIT,
                   (total % U64_LIMIT + more) % U64_LIMIT);
  }

  /** An offer reaches the user only past the gate, and the check never shrinks the store. */
  lemma RaisesOnlyTrusted(sha: Hash, w: World, e: REvent)
    requires Enabled(sha, w, ReceiverAct(e)) && GateInv(w.gate)
    ensures var n := |w.sessions| - 1;
            var s, t := w.sessions[n], ReceiverApply(sha, w.receiver, w.gate, w.sessions[n], e);
            && GateInv(GateAfter(w, e)) && GateAfter(w, e).store == w.gate.store
            && t.certificate == s.certificate
            && (t.raised != s.raised ==> Known(w.gate, s.certificate))
  {
    hide ParseHeader, ParseOffer, FrameBytes, ResolvedName, FingerprintText;
  }

  lemma GateKeeps(sha: Hash, disk: map<Text, Text>, w: World, e: GateEvent)
    requires WorldInv(sha, disk, w)
    ensures WorldInv(sha, disk, w.(gate := GateStep(w.gate, e)))
  {
    hide SessionInv, Link, FreshNames, Added, TotalReceived, Settled, FingerprintText;
    GateRunStoreStep(w.gate, e);
  }

  /** Only an accepted connection takes the receiver away from listening. */
  lemma StillListening(sha: Hash, r: Receiver)
    requires r.phase.Listening? && RSane(r)
    ensures RStep(sha, r, Incoming(false)).receiver == r
  {
  }

  /** Every action of every component keeps the invariant. */
  lemma ActionKeeps(sha: Hash, disk: map<Text, Text>, w: World, a: Action)
    requires WorldInv(sha, disk, w) && Enabled(sha, w, a)
    ensures WorldInv(sha, disk, Apply(sha, w, a))
  {
    hide SessionInv, Link, FreshNames, Added, TotalReceived, Settled, SenderEnabled, SenderApply, ReceiverEnabled,
         ReceiverApply, RStep, GateStep, SenderAligned;
    match a
    case Dial(peer, certificate) => DialKeeps(sha, disk, w, peer, certificate);
    case AcceptFails => StillListening(sha, w.receiver);
    case SenderAct(i, e) =>
      SenderKeeps(sha, w.sessions[i], e);
      QuietKeeps(sha, disk, w, i, SenderApply(w.sessions[i], e));
    case ReceiverAct(e) => ReceiverActKeeps(sha, disk, w, e);
    case DeliverUp(i, k) =>
      SessionChannels(sha, w.sessions[i]);
      NetworkKeeps(sha, w.sessions[i], Apply(sha, w, a).sessions[i]);
      QuietKeeps(sha, disk, w, i, Apply(sha, w, a).sessions[i]);
    case DeliverDown(i, k) =>
      SessionChannels(sha, w.sessions[i]);
      NetworkKeeps(sha, w.sessions[i], Apply(sha, w, a).sessions[i]);
      QuietKeeps(sha, disk, w, i, Apply(sha, w, a).sessions[i]);
    case Disconnect(i) =>
      SessionChannels(sha, w.sessions[i]);
      NetworkKeeps(sha, w.sessions[i], Apply(sha, w, a).sessions[i]);
      QuietKeeps(sha, disk, w, i, Apply(sha, w, a).sessions[i]);
    case ForeignWrite(i, bytes) =>
      SessionChannels(sha, w.sessions[i]);
      NetworkKeeps(sha, w.sessions[i], Apply(sha, w, a).sessions[i]);
      QuietKeeps(sha, disk, w, i, Apply(sha, w, a).sessions[i]);
    case UserTrusts => GateKeeps(sha, disk, w, TrustPending);
    case UserIgnores => GateKeeps(sha, disk, w, IgnorePending);
  }

  lemma SessionChannels(sha: Hash, s: Session)
    requires SessionInv(sha, s)
    ensures s.up.Valid() && s.down.Valid()
  {
  }

  lemma {:induction false} RunKeeps(sha: Hash, disk: map<Text, Text>, run: seq<World>, actions: seq<Action>, k: nat)
    requires IsRun(sha, run, actions) && WorldInv(sha, disk, run[0]) && k < |run|
    ensures WorldInv(sha, disk, run[k])
  {
    hide WorldInv, Enabled, Apply;
    if k == 0 {
    } else {
      RunKeeps(sha, disk, run, actions, k - 1);
      ActionKeeps(sha, disk, run[k - 1], actions[k - 1]);
    }
  }

  lemma ReachableInv(sha: Hash, disk: map<Text, Text>, w: World)
    requires Reachable(sha, disk, w)
    ensures WorldInv(sha, disk, w)
  {
    hide WorldInv, Start, Enabled, Apply;
    var run, actions :| IsRun(sha, run, actions) && Start(disk, run[0]) && run[|run| - 1] == w;
    StartInv(sha, disk, run[0]);
    RunKeeps(sha, disk, run, actions, |run| - 1);
  }
}
