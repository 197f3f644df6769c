/** Exactly when registry changes take effect and messages are accepted, over any run. */
module DeviceAcceptance {
  import opened Options
  import opened Sequences
  import opened KeyStore
  import opened DeviceProtocol
  import opened DeviceHistory

  // ---- The registry ----------------------------------------------------------------------------

  /** A device is provisioned exactly when it is new, not marked revoked, under a valid key id and with a
      fresh secret of at least 32 bytes; then it has that key at revision 1, and nothing else changes. */
  lemma ProvisionedExactlyWhen(
    c: Crypto, r: Registry, deviceId: string, keyId: string, revoked: bool, profile: Profile, secret: Secret)
    ensures var (after, outcome) := Provision(c, r, deviceId, keyId, revoked, profile, secret);
            && (outcome.Ok? <==>
                  && deviceId !in r.keys.entries && !revoked && c.keyIdValid(keyId)
                  && |secret| >= 32 && c.fingerprint(secret) !in r.keys.used)
            && (outcome.Ok? ==>
                  && outcome.value == Status(deviceId, keyId, 1, false)
                  && after.keys.entries == r.keys.entries[deviceId := Entry(keyId, secret, 1, false, {})]
                  && after.keys.used == r.keys.used + {c.fingerprint(secret)}
                  && after.profiles == r.profiles[deviceId := profile])
            && (outcome.Rejected? ==> after == r)
  {}

  /** The request repeats the rotation that was done last. */
  predicate RepeatsRotation(e: Entry, expectedKeyId: string, newKeyId: string, newSecret: Secret) {
    e.keyId == newKeyId && e.secret == newSecret && newKeyId != expectedKeyId
  }

  predicate MayRotate(e: Entry, expectedKeyId: string, newKeyId: string, newSecret: Secret) {
    && e.keyId == expectedKeyId && newKeyId != expectedKeyId && newKeyId !in e.retired
    && |e.retired| < 64 && newSecret != e.secret
  }

  /** A rotation is answered exactly when it repeats the last one or replaces the current key by a new one
      with a fresh secret; then the old key is retired and the new secret is the current one. */
  lemma RotatedExactlyWhen(c: Crypto, r: Registry, deviceId: string, expectedKeyId: string, newKeyId: string, newSecret: Secret)
    ensures var (after, outcome) := RotateKey(c, r, deviceId, expectedKeyId, newKeyId, newSecret);
            && (outcome.Ok? <==>
                  && c.keyIdValid(newKeyId) && |newSecret| >= 32
                  && deviceId in r.keys.entries && !r.keys.entries[deviceId].revoked
                  && var e := r.keys.entries[deviceId];
                     || RepeatsRotation(e, expectedKeyId, newKeyId, newSecret)
                     || (MayRotate(e, expectedKeyId, newKeyId, newSecret) && c.fingerprint(newSecret) !in r.keys.used))
            && (outcome.Ok? ==>
                  var e := r.keys.entries[deviceId];
                  if RepeatsRotation(e, expectedKeyId, newKeyId, newSecret)
                  then after == r && outcome.value == Status(deviceId, newKeyId, e.revision, false)
                  else
                    && outcome.value == Status(deviceId, newKeyId, e.revision + 1, false)
                    && after.keys.entries
                       == r.keys.entries[deviceId := Entry(newKeyId, newSecret, e.revision + 1, false, e.retired + {e.keyId})]
                    && after.keys.used == r.keys.used + {c.fingerprint(newSecret)} && after.profiles == r.profiles)
            && (outcome.Rejected? ==> after == r)
  {}

  /** A device is revoked exactly when it is known and its key is the expected one. */
  lemma RevokedExactlyWhen(r: Registry, deviceId: string, expectedKeyId: string)
    ensures var (after, outcome) := Revoke(r, deviceId, expectedKeyId);
            && (outcome.Ok? <==> deviceId in r.keys.entries && r.keys.entries[deviceId].keyId == expectedKeyId)
            && (outcome.Ok? ==>
                  var e := r.keys.entries[deviceId];
                  && after.profiles == r.profiles && after.keys.used == r.keys.used
                  && after.keys.entries
                     == r.keys.entries[deviceId := if e.revoked then e else Entry(e.keyId, e.secret, e.revision + 1, true, e.retired)]
                  && outcome.value == Status(deviceId, e.keyId, after.keys.entries[deviceId].revision, true))
            && (outcome.Rejected? ==> after == r)
  {
    if deviceId in r.keys.entries {
      assert r.keys.entries == r.keys.entries[deviceId := r.keys.entries[deviceId]];
    }
  }

  // ---- Genuine messages ------------------------------------------------------------------------

  /** Sent at most five minutes before and thirty seconds after it was received. */
  predicate Timely(sentAt: int, now: int) {
    now - 300_000_000 <= sentAt <= now + 30_000_000
  }

  /** A capability report repeats the device's profile; a voice command needs the microphone, decodable
      content of the stated length, and an end that is not before its start. */
  predicate PayloadFits(p: Payload, deviceId: string, profile: Profile) {
    match p
    case CapabilityReport(device, board, firmware, capabilities) =>
      device == deviceId && Profile(board, firmware, capabilities) == profile
    case VoiceCommand(base64Valid, contentLength, byteLength, recordedAt, completedAt) =>
      "microphone" in profile.capabilities && base64Valid && contentLength == byteLength && recordedAt <= completedAt
    case OtherPayload(_) => true
  }

  predicate Genuine(c: Crypto, r: Registry, a: Arrival, now: int) {
    var e := a.envelope;
    && a.encodedLength <= 32_768 && a.versionSupported && a.envelopeValid
    && e.deviceId in r.keys.entries
    && var entry := r.keys.entries[e.deviceId];
       && !entry.revoked && e.keyId == entry.keyId && e.tag == c.authenticate(e.(tag := ""), entry.secret)
       && Timely(e.sentAt, now) && a.payloadRegistered && a.payloadValid
       && PayloadFits(e.payload, e.deviceId, ProfileOf(r, e.deviceId))
  }

  lemma GenuineExactlyWhen(c: Crypto, r: Registry, a: Arrival, now: int)
    ensures CheckGenuine(c, r, a, now).None? <==> Genuine(c, r, a, now)
  {}

  // ---- Acceptance over a run -------------------------------------------------------------------

  /** The sequence of the message accepted last under this identity, zero before the first. */
  function LatestSequence(accepted: seq<Envelope>, i: Identity): int {
    if accepted == [] then 0
    else
      var last := accepted[|accepted| - 1];
      if IdentityOf(last) == i then last.sequence else LatestSequence(accepted[..|accepted| - 1], i)
  }

  lemma {:induction false} SequencesFollow(c: Crypto, ops: seq<Operation>, i: Identity)
    ensures LastOf(Run(c, START, ops).memory, i) == LatestSequence(Run(c, START, ops).accepted, i)
  {
    if ops != [] {
      hide Verify, Provision, RotateKey, Revoke, LastOf, IdentityOf;
      var before, op := Run(c, START, ops[..|ops| - 1]), ops[|ops| - 1];
      SequencesFollow(c, ops[..|ops| - 1], i);
      if op.VerifyOp? {
        LastAfterVerify(c, before, op.arrival, op.now, i);
        AcceptedFacts(c, before, op.arrival, op.now);
        assert (before.accepted + [op.arrival.envelope])[..|before.accepted|] == before.accepted;
      }
    } else {
      assert LastOf(START.memory, i) == 0;
    }
  }

  /** The latest sequence is the highest. */
  lemma {:induction false} LatestIsHighest(accepted: seq<Envelope>, i: Identity, sequence: int)
    requires forall j, k :: 0 <= j < k < |accepted| && IdentityOf(accepted[j]) == IdentityOf(accepted[k])
               ==> accepted[j].sequence < accepted[k].sequence
    ensures LatestSequence(accepted, i) < sequence && sequence > 0 <==>
            sequence > 0 && forall k :: 0 <= k < |accepted| && IdentityOf(accepted[k]) == i ==> accepted[k].sequence < sequence
  {
    hide IdentityOf;
    if accepted != [] {
      var n := |accepted| - 1;
      LatestIsHighest(accepted[..n], i, sequence);
      if IdentityOf(accepted[n]) == i {
        assert LatestSequence(accepted, i) == accepted[n].sequence;
      } else {
        assert LatestSequence(accepted, i) == LatestSequence(accepted[..n], i);
      }
    }
  }

  /** The id is not among the latest 1024 accepted under the key, and the sequence is positive and above
      every one accepted under it. */
  predicate IsNew(accepted: seq<Envelope>, e: Envelope) {
    && e.messageId !in Latest(IdsAccepted(accepted, IdentityOf(e)), 1_024)
    && e.sequence > 0
    && forall k :: 0 <= k < |accepted| && IdentityOf(accepted[k]) == IdentityOf(e) ==> accepted[k].sequence < e.sequence
  }

  lemma OneMoreCall(c: Crypto, ops: seq<Operation>, op: Operation)
    ensures Run(c, START, ops + [op]) == Step(c, Run(c, START, ops), op)
  {
    hide Step;
    assert (ops + [op])[..|ops|] == ops;
  }

  /** Sequences start above zero: the memory never falls below it. */
  lemma {:induction false} LatestNotNegative(c: Crypto, ops: seq<Operation>, i: Identity)
    ensures LastOf(Run(c, START, ops).memory, i) >= 0
  {
    if ops == [] {
      assert LastOf(START.memory, i) == 0;
    } else {
      hide Verify, Provision, RotateKey, Revoke, LastOf, IdentityOf;
      var before, op := Run(c, START, ops[..|ops| - 1]), ops[|ops| - 1];
      LatestNotNegative(c, ops[..|ops| - 1], i);
      if op.VerifyOp? {
        LastAfterVerify(c, before, op.arrival, op.now, i);
        AcceptedFacts(c, before, op.arrival, op.now);
      }
    }
  }

  /** Over any run a message is accepted exactly when it is genuine and new. */
  lemma AcceptedExactlyWhen(c: Crypto, ops: seq<Operation>, a: Arrival, now: int)
    ensures var w, after := Run(c, START, ops), Run(c, START, ops + [VerifyOp(a, now)]);
            && after.registry == w.registry
            && after.accepted == if Genuine(c, w.registry, a, now) && IsNew(w.accepted, a.envelope)
                                 then w.accepted + [a.envelope] else w.accepted
  {
    hide Run, Step, CheckGenuine, Genuine, Latest, IdsAccepted, LatestSequence;
    var w, i := Run(c, START, ops), IdentityOf(a.envelope);
    OneMoreCall(c, ops, VerifyOp(a, now));
    GenuineExactlyWhen(c, w.registry, a, now);
    WindowIsLatestIds(c, ops, i);
    SequencesFollow(c, ops, i);
    LatestNotNegative(c, ops, i);
    NoMessageAcceptedTwice(c, ops);
    LatestIsHighest(w.accepted, i, a.envelope.sequence);
    VerifyStep(c, w, a, now);
  }

  lemma VerifyStep(c: Crypto, w: World, a: Arrival, now: int)
    ensures var e, i := a.envelope, IdentityOf(a.envelope);
            var accepts := CheckGenuine(c, w.registry, a, now).None? && e.messageId !in IdsOf(w.memory, i)
                           && e.sequence > LastOf(w.memory, i);
            && Step(c, w, VerifyOp(a, now)).accepted == (if accepts then w.accepted + [e] else w.accepted)
            && Step(c, w, VerifyOp(a, now)).registry == w.registry
  {
    hide CheckGenuine, Remember;
  }

  /** A refusal tells what was wrong. */
  lemma RefusalsTell(c: Crypto, r: Registry, m: Memory, a: Arrival, now: int)
    ensures var outcome, e := Verify(c, r, m, a, now).1, a.envelope;
            outcome.Rejected? ==>
              match outcome.reason
              case MessageTooLarge => a.encodedLength > 32_768
              case ProtocolVersionUnsupported => !a.versionSupported
              case EnvelopeSchemaInvalid => !a.envelopeValid
              case DeviceUnknown => e.deviceId !in r.keys.entries
              case DeviceRevoked => e.deviceId in r.keys.entries && r.keys.entries[e.deviceId].revoked
              case KeyIdMismatch => e.deviceId in r.keys.entries && e.keyId != r.keys.entries[e.deviceId].keyId
              case AuthenticationInvalid =>
                e.deviceId in r.keys.entries && e.tag != c.authenticate(e.(tag := ""), r.keys.entries[e.deviceId].secret)
              case MessageTimestampInvalid => !Timely(e.sentAt, now)
              case PayloadTypeNotRegistered => !a.payloadRegistered
              case PayloadSchemaInvalid => !a.payloadValid
              case MessageIdReplayed => Genuine(c, r, a, now) && e.messageId in IdsOf(m, IdentityOf(e))
              case SequenceReplayed => Genuine(c, r, a, now) && e.sequence <= LastOf(m, IdentityOf(e))
              case CapabilityReportMismatch =>
                e.payload.CapabilityReport? && !PayloadFits(e.payload, e.deviceId, ProfileOf(r, e.deviceId))
              case MicrophoneCapabilityRequired => e.payload.VoiceCommand? && "microphone" !in ProfileOf(r, e.deviceId).capabilities
              case AudioContentInvalid => e.payload.VoiceCommand? && !e.payload.base64Valid
              case AudioLengthMismatch => e.payload.VoiceCommand? && e.payload.contentLength != e.payload.byteLength
              case AudioTimestampInvalid => e.payload.VoiceCommand? && e.payload.completedAt < e.payload.recordedAt
              case _ => false
  {
    GenuineExactlyWhen(c, r, a, now);
  }
}
