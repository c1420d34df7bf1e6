/** The trust gate: certificate fingerprints, the trust store and the pending decision. */
module Trust {
  import opened Bytes
  import opened Payloads

  // ------------------------------------------------------------------ fingerprints

  const COLON: Byte := 0x3A

  /** One lower-case hexadecimal digit. */
  function HexDigit(n: nat): Byte
    requires n < 16
  {
    if n < 10 then 0x30 + n else 0x61 + (n - 10)
  }

  function HexValue(c: Byte): int {
    if c < 0x61 then c - 0x30 else c - 0x61 + 10
  }

  /** Two digits per byte, colons between bytes. */
  function FingerprintText(digest: Text): Text {
    if digest == [] then [] else
    var front, last := digest[..|digest| - 1], digest[|digest| - 1];
    FingerprintText(front) + (if front == [] then [] else [COLON]) + [HexDigit(last / 16), HexDigit(last % 16)]
  }

  /** Reads the digits back, ignoring where colons stand. */
  function FingerprintValue(text: Text): seq<int>
    decreases |text|
  {
    if |text| < 2 then [] else
    var n := |text|;
    var rest := if n == 2 then [] else text[..n - 3];
    FingerprintValue(rest) + [16 * HexValue(text[n - 2]) + HexValue(text[n - 1])]
  }

  lemma HexRoundTrip(b: Byte)
    ensures 16 * HexValue(HexDigit(b / 16)) + HexValue(HexDigit(b % 16)) == b
  {
  }

  lemma {:induction false} FingerprintRoundTrip(digest: Text)
    ensures FingerprintValue(FingerprintText(digest)) == digest
    ensures |FingerprintText(digest)| == if digest == [] then 0 else 3 * |digest| - 1
  {
    hide HexDigit, HexValue;
    if digest == [] {
    } else {
      var front, last := digest[..|digest| - 1], digest[|digest| - 1];
      var text := FingerprintText(digest);
      FingerprintRoundTrip(front);
      assert |text| == 2 || text[..|text| - 3] == FingerprintText(front);
      assert front + [last] == digest;
      HexRoundTrip(last);
    }
  }

  lemma DigitIsHex(n: nat)
    requires n < 16
    ensures HexDigit(n) == "0123456789abcdef"[n] as int
  {
  }

  /** The text, character by character: the two lower-case digits of each byte, high one first, and a
      colon before the next byte. */
  lemma {:induction false} FingerprintAt(digest: Text, k: nat)
    requires k < |digest|
    ensures var text := FingerprintText(digest);
            && |text| == 3 * |digest| - 1
            && text[3 * k] == "0123456789abcdef"[digest[k] / 16] as int
            && text[3 * k + 1] == "0123456789abcdef"[digest[k] % 16] as int
            && (k + 1 < |digest| ==> text[3 * k + 2] == ':' as int)
    decreases |digest|
  {
    hide HexDigit;
    var n := |digest| - 1;
    FingerprintRoundTrip(digest);
    FingerprintRoundTrip(digest[..n]);
    DigitIsHex(digest[k] / 16);
    DigitIsHex(digest[k] % 16);
    if k == n {
    } else {
      FingerprintAt(digest[..n], k);
    }
  }

  /** Looking a certificate up by its text is looking it up by its digest. */
  lemma FingerprintInjective(a: Text, b: Text)
    ensures FingerprintText(a) == FingerprintText(b) <==> a == b
  {
    FingerprintRoundTrip(a);
    FingerprintRoundTrip(b);
  }

  /** The hex loop of `getCertFingerprint`; no certificate gives the empty text. */
  method CertFingerprint(certificate: Option<Digest>) returns (fingerprint: Text)
    ensures fingerprint == Fingerprint(certificate)
  {
    fingerprint := [];
    if certificate.None? {
      return;
    }
    var buffer := certificate.value;
    var i := 0;
    while i < |buffer|
      invariant 0 <= i <= |buffer|
      invariant fingerprint == FingerprintText(buffer[..i])
    {
      assert buffer[..i + 1][..i] == buffer[..i];
      if i > 0 {
        fingerprint := fingerprint + [COLON];
      }
      fingerprint := fingerprint + [HexDigit(buffer[i] / 16), HexDigit(buffer[i] % 16)];
      i := i + 1;
    }
    assert buffer[..|buffer|] == buffer;
  }

  function Fingerprint(certificate: Option<Digest>): Text {
    match certificate
    case None => []
    case Some(d) => FingerprintText(d)
  }

  // ------------------------------------------------------------------ the gate

  /** The stored devices, and the one waiting for the user's decision. */
  datatype Gate = Gate(store: map<Text, Text>, pending: bool, fingerprint: Text, deviceName: Text)

  datatype GateEvent =
    | Validate(certificate: Option<Digest>, deviceName: Text)
    | TrustPending
    | IgnorePending

  predicate Known(g: Gate, certificate: Option<Digest>) {
    certificate.Some? && Fingerprint(certificate) in g.store
  }

  function GateStep(g: Gate, e: GateEvent): Gate {
    match e
    case Validate(certificate, deviceName) =>
      if certificate.None? || Known(g, certificate) then g
      else g.(pending := true, fingerprint := Fingerprint(certificate), deviceName := deviceName)
    case TrustPending =>
      if !g.pending then g else g.(store := g.store[g.fingerprint := g.deviceName], pending := false)
    case IgnorePending => g.(pending := false)
  }

  /** A pending device is not a stored one. */
  predicate GateInv(g: Gate) {
    g.pending ==> g.fingerprint !in g.store
  }

  function GateRun(g: Gate, events: seq<GateEvent>): Gate
    decreases |events|
  {
    if events == [] then g else GateStep(GateRun(g, events[..|events| - 1]), events[|events| - 1])
  }

  /** Event `k` is a validation of a certificate that the store does not know at that moment. */
  ghost predicate Refuses(g: Gate, events: seq<GateEvent>, k: nat)
    requires k < |events|
  {
    events[k].Validate? && events[k].certificate.Some? && !Known(GateRun(g, events[..k]), events[k].certificate)
  }

  /** Event `k` is such a refusal, of this fingerprint under this name. */
  ghost predicate Queued(g: Gate, events: seq<GateEvent>, fingerprint: Text, deviceName: Text, k: nat)
    requires k < |events|
  {
    Refuses(g, events, k) && Fingerprint(events[k].certificate) == fingerprint && events[k].deviceName == deviceName
  }

  /** Event `m` changes what waits for the user: another refusal, a trust or an ignore. */
  ghost predicate Disturbs(g: Gate, events: seq<GateEvent>, m: nat)
    requires m < |events|
  {
    Refuses(g, events, m) || events[m].TrustPending? || events[m].IgnorePending?
  }

  /** The refusal at `k` still waits for the user when event `t` comes. */
  ghost predicate Waits(g: Gate, events: seq<GateEvent>, fingerprint: Text, deviceName: Text, k: nat, t: nat)
    requires k < t <= |events|
  {
    Queued(g, events, fingerprint, deviceName, k) && forall m :: k < m < t ==> !Disturbs(g, events, m)
  }

  lemma {:induction false} GateRunKeepsInv(g: Gate, events: seq<GateEvent>)
    requires GateInv(g)
    ensures GateInv(GateRun(g, events))
    ensures g.store.Keys <= GateRun(g, events).store.Keys
    decreases |events|
  {
    if events == [] {
    } else {
      GateRunKeepsInv(g, events[..|events| - 1]);
    }
  }

  /** The gate after one more event. */
  lemma GateRunStep(g: Gate, events: seq<GateEvent>, t: nat)
    requires t < |events|
    ensures var before, after := GateRun(g, events[..t]), GateRun(g, events[..t + 1]);
            after == if Refuses(g, events, t)
                     then before.(pending := true, fingerprint := Fingerprint(events[t].certificate),
                                  deviceName := events[t].deviceName)
                     else if events[t].TrustPending? && before.pending
                     then before.(store := before.store[before.fingerprint := before.deviceName], pending := false)
                     else if events[t].IgnorePending? then before.(pending := false)
                     else before
  {
    hide Known, Fingerprint;
    assert events[..t + 1][..t] == events[..t];
  }

  /** A device waits for the user exactly from its refusal to the next refusal, trust or ignore, and
      under the name given at the refusal. */
  lemma {:induction false} PendingIff(g: Gate, events: seq<GateEvent>, t: nat)
    requires !g.pending && t <= |events|
    ensures var now := GateRun(g, events[..t]);
            && (now.pending ==> exists k :: 0 <= k < t && Waits(g, events, now.fingerprint, now.deviceName, k, t))
            && (forall k, f, name :: 0 <= k < t && Waits(g, events, f, name, k, t) ==>
                  now.pending && now.fingerprint == f && now.deviceName == name)
  {
    hide Refuses, GateStep, Fingerprint;
    if t == 0 {
      assert events[..0] == [];
    } else {
      var before, after := GateRun(g, events[..t - 1]), GateRun(g, events[..t]);
      PendingIff(g, events, t - 1);
      GateRunStep(g, events, t - 1);
      if after.pending {
        if Disturbs(g, events, t - 1) {
          assert Waits(g, events, after.fingerprint, after.deviceName, t - 1, t);
        } else {
          var k :| 0 <= k < t - 1 && Waits(g, events, before.fingerprint, before.deviceName, k, t - 1);
          assert Waits(g, events, after.fingerprint, after.deviceName, k, t);
        }
      }
      forall k, f, name | 0 <= k < t && Waits(g, events, f, name, k, t)
        ensures after.pending && after.fingerprint == f && after.deviceName == name
      {
        if k < t - 1 {
          assert !Disturbs(g, events, t - 1);
          assert Waits(g, events, f, name, k, t - 1);
        } else {
          assert Queued(g, events, f, name, t - 1);
        }
      }
    }
  }

  /** The user's trust at `t` goes to the device that was refused at `k`. */
  ghost predicate Confirmed(g: Gate, events: seq<GateEvent>, fingerprint: Text, deviceName: Text, k: nat, t: nat)
    requires k < t < |events|
  {
    events[t].TrustPending? && Waits(g, events, fingerprint, deviceName, k, t)
  }

  /** A fingerprint enters the store exactly by a trust that follows its refusal with no other refusal,
      trust or ignore in between, and it is stored under the name given at that refusal. */
  lemma {:induction false} StoreGrowsByConsent(g: Gate, events: seq<GateEvent>, fingerprint: Text, n: nat)
    requires !g.pending && fingerprint !in g.store && n <= |events|
    ensures var store := GateRun(g, events[..n]).store;
            && (fingerprint in store ==>
                  exists k, t :: 0 <= k < t < n && Confirmed(g, events, fingerprint, store[fingerprint], k, t))
            && (forall k, t, name :: 0 <= k < t < n && Confirmed(g, events, fingerprint, name, k, t) ==>
                  fingerprint in store && store[fingerprint] == name)
  {
    hide Refuses, GateStep, Fingerprint, Waits;
    if n == 0 {
      assert events[..0] == [];
    } else {
      var before, after := GateRun(g, events[..n - 1]), GateRun(g, events[..n]);
      StoreGrowsByConsent(g, events, fingerprint, n - 1);
      GateRunStep(g, events, n - 1);
      PendingIff(g, events, n - 1);
      GateRunKeepsInv(g, events[..n - 1]);
      if fingerprint in after.store && fingerprint !in before.store {
        var k :| 0 <= k < n - 1 && Waits(g, events, before.fingerprint, before.deviceName, k, n - 1);
        TrustIsNoRefusal(g, events, n - 1);
        assert Confirmed(g, events, fingerprint, after.store[fingerprint], k, n - 1);
      }
      forall k, t, name | 0 <= k < t < n && Confirmed(g, events, fingerprint, name, k, t)
        ensures fingerprint in after.store && after.store[fingerprint] == name
      {
        if t == n - 1 {
          TrustIsNoRefusal(g, events, t);
        }
      }
    }
  }

  lemma TrustIsNoRefusal(g: Gate, events: seq<GateEvent>, t: nat)
    requires t < |events|
    ensures Refuses(g, events, t) ==> events[t].Validate?
  {
  }

  lemma GateRunStoreStep(g: Gate, e: GateEvent)
    ensures g.store.Keys <= GateStep(g, e).store.Keys
  {
  }

  /** The fields of `NetTransfer` that the gate uses; the store is the content of the trust file. */
  class TrustGate {
    var store: map<Text, Text>
    var pendingTrustFlag: bool
    var pendingTrustFingerprint: Text
    var pendingTrustDeviceName: Text

    ghost function Model(): Gate
      reads this
    {
      Gate(store, pendingTrustFlag, pendingTrustFingerprint, pendingTrustDeviceName)
    }

    constructor (store: map<Text, Text>)
      ensures Model() == Gate(store, false, [], []) && GateInv(Model())
    {
      this.store := store;
      pendingTrustFlag, pendingTrustFingerprint, pendingTrustDeviceName := false, [], [];
    }

    method ValidatePeerCert(certificate: Option<Digest>, deviceName: Text) returns (allowed: bool)
      requires GateInv(Model())
      modifies this
      ensures GateInv(Model())
      ensures Model() == GateStep(old(Model()), Validate(certificate, deviceName))
      ensures allowed == Known(old(Model()), certificate)
    {
      var fingerprint := CertFingerprint(certificate);
      if certificate.Some? {
        FingerprintRoundTrip(certificate.value);
      }
      if fingerprint == [] {
        return false;
      }
      if fingerprint in store {
        return true;
      }
      pendingTrustFingerprint := fingerprint;
      pendingTrustDeviceName := deviceName;
      pendingTrustFlag := true;
      return false;
    }

    method TrustDevice()
      requires GateInv(Model())
      modifies this
      ensures GateInv(Model())
      ensures Model() == GateStep(old(Model()), TrustPending)
    {
      if !pendingTrustFlag {
        return;
      }
      store := store[pendingTrustFingerprint := pendingTrustDeviceName];
      pendingTrustFlag := false;
    }

    method IgnorePendingTrust()
      requires GateInv(Model())
      modifies this
      ensures GateInv(Model())
      ensures Model() == GateStep(old(Model()), IgnorePending)
    {
      pendingTrustFlag := false;
    }
  }
}
