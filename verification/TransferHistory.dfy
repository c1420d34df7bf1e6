/** What explains a state in the past of its run: a stalled receiver, a trusted device, a stored file. */
module TransferHistory {
  import opened Bytes
  import opened Header
  import opened Payloads
  import opened Framing
  import opened Files
  import opened Sending
  import opened Receiving
  import opened Trust
  import opened Transfers
  import opened SessionInvariant
  import opened TransferSafety
  import opened TransferTheorems

  // ------------------------------------------------------------------ stalled receivers

  /** Action `k` is a callback that returns early without listening again. */
  ghost predicate StallsAt(run: seq<World>, actions: seq<Action>, k: nat)
    requires |actions| < |run|
  {
    && k < |actions| && actions[k].ReceiverAct?
    && RReady(run[k].receiver, actions[k].revent) && Stalls(run[k].receiver, actions[k].revent)
  }

  lemma StallStep(sha: Hash, w: World, a: Action)
    requires Enabled(sha, w, a)
    ensures var stalls := a.ReceiverAct? && RReady(w.receiver, a.revent) && Stalls(w.receiver, a.revent);
            Apply(sha, w, a).receiver.phase.Stalled? <==> w.receiver.phase.Stalled? || stalls
  {
    hide RStep, SenderApply, SenderEnabled, ReceiverApply, GateStep, Stalls;
    if a.ReceiverAct? {
      StallsExactly(sha, w.receiver, a.revent);
    } else if a.Dial? {
      StallsExactly(sha, w.receiver, Incoming(true));
      NeverStallsIncoming(w.receiver);
    } else if a.AcceptFails? {
      StillListening(sha, w.receiver);
    }
  }

  lemma NeverStallsIncoming(r: Receiver)
    requires r.phase.Listening?
    ensures !Stalls(r, Incoming(true))
  {
  }

  /** A receiver has stalled exactly when one of the early returns was taken some time before. */
  lemma {:induction false} StalledIff(sha: Hash, run: seq<World>, actions: seq<Action>, q: nat)
    requires IsRun(sha, run, actions) && q < |run| && !run[0].receiver.phase.Stalled?
    ensures run[q].receiver.phase.Stalled? <==> exists k :: 0 <= k < q && StallsAt(run, actions, k)
  {
    hide Enabled, Apply, Stalls, RReady;
    if q == 0 {
    } else {
      StalledIff(sha, run, actions, q - 1);
      StallStep(sha, run[q - 1], actions[q - 1]);
      assert StallsAt(run, actions, q - 1) ==> run[q].receiver.phase.Stalled?;
      assert run[q].receiver.phase.Stalled? ==> run[q - 1].receiver.phase.Stalled? || StallsAt(run, actions, q - 1);
    }
  }

  /** Over every folder and trust store, one failed handshake is enough. */
  lemma StallIsReachable(sha: Hash, disk: map<Text, Text>, store: map<Text, Text>) returns (w: World)
    ensures Reachable(sha, disk, w) && w.receiver.phase.Stalled? && w.gate.store == store
  {
    var offer := Offer(0, 0, seq(DIGEST_SIZE, _ => 0), [], []);
    var w0 := World(Receiver(Listening, 0, offer, [], false, 0, disk), Gate(store, false, [], []), []);
    var actions := [Dial(Foreign, None), ReceiverAct(RShaken(false))];
    var w1 := Apply(sha, w0, actions[0]);
    w := Apply(sha, w1, actions[1]);
    var run := [w0, w1, w];
    assert IsRun(sha, run, actions) && Start(disk, run[0]) && run[|run| - 1] == w;
  }

  // ------------------------------------------------------------------ trust by consent

  /** The action completes an offer from a certificate that the store does not know. */
  predicate Refuses(w: World, a: Action) {
    && a.ReceiverAct? && a.revent.RGot? && w.receiver.phase.AwaitOfferPayload? && w.sessions != []
    && ParseOffer(a.revent.data).Some?
    && var certificate := w.sessions[|w.sessions| - 1].certificate;
    && certificate.Some? && !Known(w.gate, certificate)
  }

  /** The fingerprint that is refused, and the device name in the refused offer. */
  function RefusedFingerprint(w: World, a: Action): Text
    requires Refuses(w, a)
  {
    Fingerprint(w.sessions[|w.sessions| - 1].certificate)
  }

  function RefusedName(w: World, a: Action): Text
    requires Refuses(w, a)
  {
    ParseOffer(a.revent.data).value.deviceName
  }

  /** The refusal at `k` still waits for the user before action `t`: no other refusal, no trust and no
      ignore came in between. */
  ghost predicate Waits(run: seq<World>, actions: seq<Action>, fingerprint: Text, deviceName: Text, k: nat, t: nat)
    requires k < t <= |actions| < |run|
  {
    && Refuses(run[k], actions[k])
    && RefusedFingerprint(run[k], actions[k]) == fingerprint && RefusedName(run[k], actions[k]) == deviceName
    && forall m :: k < m < t ==> !Refuses(run[m], actions[m]) && !actions[m].UserTrusts? && !actions[m].UserIgnores?
  }

  /** How an action changes the gate. */
  lemma GateChange(sha: Hash, w: World, a: Action)
    requires Enabled(sha, w, a)
    ensures var g := w.gate;
            Apply(sha, w, a).gate ==
              if Refuses(w, a) then g.(pending := true, fingerprint := RefusedFingerprint(w, a), deviceName := RefusedName(w, a))
              else if a.UserTrusts? && g.pending then g.(store := g.store[g.fingerprint := g.deviceName], pending := false)
              else if a.UserIgnores? then g.(pending := false)
              else g
  {
    hide RStep, SenderApply, SenderEnabled, ReceiverApply, ReceiverEnabled, ParseOffer, FingerprintText;
  }

  /** In every run a device waits for the user exactly from its refusal to the next refusal, trust or
      ignore. */
  lemma {:induction false} PendingInRun(sha: Hash, disk: map<Text, Text>, run: seq<World>, actions: seq<Action>, t: nat)
    requires IsRun(sha, run, actions) && Start(disk, run[0]) && t <= |actions|
    ensures var now := run[t].gate;
            && (now.pending ==> exists k :: 0 <= k < t && Waits(run, actions, now.fingerprint, now.deviceName, k, t))
            && (forall k, f, name :: 0 <= k < t && Waits(run, actions, f, name, k, t) ==>
                  now.pending && now.fingerprint == f && now.deviceName == name)
  {
    hide Enabled, Apply, Refuses, RefusedFingerprint, RefusedName;
    if t == 0 {
    } else {
      var before, after := run[t - 1].gate, run[t].gate;
      PendingInRun(sha, disk, run, actions, t - 1);
      GateChange(sha, run[t - 1], actions[t - 1]);
      OnlyCallbacksRefuse(run[t - 1], actions[t - 1]);
      if after.pending {
        if Refuses(run[t - 1], actions[t - 1]) {
          assert Waits(run, actions, after.fingerprint, after.deviceName, t - 1, t);
        } else {
          var k :| 0 <= k < t - 1 && Waits(run, actions, before.fingerprint, before.deviceName, k, t - 1);
          assert Waits(run, actions, after.fingerprint, after.deviceName, k, t);
        }
      }
      forall k, f, name | 0 <= k < t && Waits(run, actions, f, name, k, t)
        ensures after.pending && after.fingerprint == f && after.deviceName == name
      {
        if k < t - 1 {
          assert !Refuses(run[t - 1], actions[t - 1]);
          assert Waits(run, actions, f, name, k, t - 1);
        }
      }
    }
  }

  lemma OnlyCallbacksRefuse(w: World, a: Action)
    ensures Refuses(w, a) ==> a.ReceiverAct?
  {
  }

  /** The user's trust at `t` goes to the device that was refused at `k`. */
  ghost predicate Confirmed(run: seq<World>, actions: seq<Action>, fingerprint: Text, deviceName: Text, k: nat, t: nat)
    requires k < t < |actions| < |run|
  {
    actions[t].UserTrusts? && Waits(run, actions, fingerprint, deviceName, k, t)
  }

  /** In every run a fingerprint enters the trust store exactly by a trust of the user that follows the
      refusal of an offer with that certificate, with no other refusal, trust or ignore in between; it is
      stored under the name in that offer. */
  lemma {:induction false} TrustIsByConsent(sha: Hash, disk: map<Text, Text>, run: seq<World>, actions: seq<Action>, n: nat,
                                            fingerprint: Text)
    requires IsRun(sha, run, actions) && Start(disk, run[0]) && n <= |actions| && fingerprint !in run[0].gate.store
    ensures var store := run[n].gate.store;
            && (fingerprint in store ==>
                  exists k, t :: 0 <= k < t < n && Confirmed(run, actions, fingerprint, store[fingerprint], k, t))
            && (forall k, t, name :: 0 <= k < t < n && Confirmed(run, actions, fingerprint, name, k, t) ==>
                  fingerprint in store && store[fingerprint] == name)
  {
    hide Enabled, Apply, Refuses, RefusedFingerprint, RefusedName, Waits, WorldInv;
    if n == 0 {
    } else {
      var before, after := run[n - 1].gate, run[n].gate;
      TrustIsByConsent(sha, disk, run, actions, n - 1, fingerprint);
      GateChange(sha, run[n - 1], actions[n - 1]);
      OnlyCallbacksRefuse(run[n - 1], actions[n - 1]);
      PendingInRun(sha, disk, run, actions, n - 1);
      StartInv(sha, disk, run[0]);
      RunKeeps(sha, disk, run, actions, n - 1);
      GateHolds(sha, disk, run[n - 1]);
      if fingerprint in after.store && fingerprint !in before.store {
        var k :| 0 <= k < n - 1 && Waits(run, actions, before.fingerprint, before.deviceName, k, n - 1);
        assert Confirmed(run, actions, fingerprint, after.store[fingerprint], k, n - 1);
      }
    }
  }

  // ------------------------------------------------------------------ names of stored files

  /** Action `m` creates the file for the accepted offer of session `i`, under the name that the folder
      leaves free at that moment. */
  ghost predicate CreatedAt(run: seq<World>, actions: seq<Action>, m: nat, i: int, offer: Offer, path: Text)
    requires |actions| < |run|
  {
    && m < |actions| && actions[m] == ReceiverAct(RWritten(true, true))
    && run[m].receiver.phase.Accepting? && |run[m].sessions| == i + 1 && run[m].receiver.offer == offer
    && path == ResolvedName(run[m].receiver.files.Keys, offer.fileName)
  }

  lemma OpenStep(sha: Hash, w: World, a: Action)
    requires Enabled(sha, w, a) && Apply(sha, w, a).receiver.fileOpen
    ensures var v := Apply(sha, w, a);
            && |v.sessions| == |w.sessions| && v.receiver.offer == w.receiver.offer
            && (|| (w.receiver.fileOpen && v.receiver.filePath == w.receiver.filePath)
                || (&& a == ReceiverAct(RWritten(true, true)) && w.receiver.phase.Accepting?
                    && v.receiver.filePath == ResolvedName(w.receiver.files.Keys, w.receiver.offer.fileName)))
  {
    hide SenderApply, SenderEnabled, ReceiverApply, GateStep, ParseHeader, ParseOffer, FrameBytes, ResolvedName, Flat;
  }

  lemma {:induction false} OpenFile(sha: Hash, disk: map<Text, Text>, run: seq<World>, actions: seq<Action>, k: nat)
      returns (m: nat)
    requires IsRun(sha, run, actions) && Start(disk, run[0]) && k < |run| && run[k].receiver.fileOpen
    ensures m < k && CreatedAt(run, actions, m, |run[k].sessions| - 1, run[k].receiver.offer, run[k].receiver.filePath)
  {
    hide Enabled, Apply, ResolvedName;
    assert k > 0;
    OpenStep(sha, run[k - 1], actions[k - 1]);
    if run[k - 1].receiver.fileOpen && run[k].receiver.filePath == run[k - 1].receiver.filePath {
      m := OpenFile(sha, disk, run, actions, k - 1);
    } else {
      m := k - 1;
    }
  }

  lemma ReceiverReports(sha: Hash, r: Receiver, g: Gate, s: Session, e: REvent)
    requires Link(r, s) && ReceiverEnabled(r, g, s, e) && !r.phase.Listening?
    ensures var t := ReceiverApply(sha, r, g, s, e);
            t.acked.Some? ==>
              && r.fileOpen && t.raised == s.raised == Some(r.offer)
              && t.reports != [] && t.reports[0].path == r.filePath
  {
    hide OwnLink, ParseHeader, ParseOffer, FrameBytes, ResolvedName, AckFrame, AcceptFrame, RejectFrame, Known;
  }

  /** A verdict is about the open file of the session's offer, and stays as it is. */
  lemma ReportStep(sha: Hash, disk: map<Text, Text>, w: World, a: Action, i: nat)
    requires WorldInv(sha, disk, w) && Enabled(sha, w, a)
    requires i < |Apply(sha, w, a).sessions|
    requires Apply(sha, w, a).sessions[i].acked.Some?
    ensures var t := Apply(sha, w, a).sessions[i];
            && i < |w.sessions|
            && var s := w.sessions[i];
            && t.raised == s.raised
            && (|| (t.reports == s.reports && s.acked.Some?)
                || (&& w.receiver.fileOpen && t.reports != [] && i == |w.sessions| - 1
                    && s.raised == Some(w.receiver.offer) && t.reports[0].path == w.receiver.filePath))
  {
    hide SessionInv, Link, FreshNames, Added, TotalReceived, SenderEnabled, ReceiverEnabled, ReceiverApply, GateStep,
         ParseOffer, RStep, Settled, Known, Step;
    if a.ReceiverAct? {
      ReceiverReports(sha, w.receiver, w.gate, w.sessions[|w.sessions| - 1], a.revent);
    }
  }

  /** A file that a session has received, and kept or dropped by its verdict, was created under the offered
      name or the least numbered variant of it, whichever was free at that moment. */
  lemma {:induction false} StoredUnderFreeName(sha: Hash, disk: map<Text, Text>, run: seq<World>, actions: seq<Action>, k: nat, i: nat)
      returns (m: nat)
    requires IsRun(sha, run, actions) && Start(disk, run[0]) && k < |run| && i < |run[k].sessions|
    requires run[k].sessions[i].acked.Some?
    ensures var s := run[k].sessions[i];
            && m < k && s.raised.Some? && s.reports != [] && CreatedAt(run, actions, m, i, s.raised.value, s.reports[0].path)
            && (s.peer.Own? ==> s.raised.value.fileName == s.peer.sender.job.name)
  {
    hide Enabled, Apply, WorldInv, ResolvedName, CreatedAt;
    assert k > 0;
    StartInv(sha, disk, run[0]);
    RunKeeps(sha, disk, run, actions, k - 1);
    RunKeeps(sha, disk, run, actions, k);
    if run[k].sessions[i].peer.Own? {
      OfferedName(sha, disk, run[k], i);
    }
    ReportStep(sha, disk, run[k - 1], actions[k - 1], i);
    if run[k].sessions[i].reports == run[k - 1].sessions[i].reports && run[k - 1].sessions[i].acked.Some? {
      m := StoredUnderFreeName(sha, disk, run, actions, k - 1, i);
    } else {
      m := OpenFile(sha, disk, run, actions, k - 1);
    }
  }

  lemma OfferedName(sha: Hash, disk: map<Text, Text>, w: World, i: nat)
    requires WorldInv(sha, disk, w) && i < |w.sessions| && w.sessions[i].peer.Own?
    ensures w.sessions[i].raised.Some? ==>
              w.sessions[i].raised.value.fileName == w.sessions[i].peer.sender.job.name
  {
    hide WorldInv, SenderAligned, ReplyScript, Script;
    EachSession(sha, disk, w, i);
  }
}
