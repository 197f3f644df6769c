/**
 Signed device messages: the device registry with its key lifecycle, and the verifier with its bounded
 replay window and per-key sequence numbers.
 */
module DeviceProtocol {
  // HMAC and SHA-256 are function parameters (`Crypto`), and so is the key id syntax check. An
  // `Arrival` is an envelope with what library code found out about it. Times count microseconds.

  import opened Options
  import opened KeyStore

  const MAXIMUM_ENVELOPE_BYTES := 32_768
  const MAXIMUM_REPLAY_IDS := 1_024
  const MINIMUM_SECRET_BYTES := 32
  const SECOND := 1_000_000

  datatype Profile = Profile(boardProfileId: string, firmwareVersion: string, capabilities: set<string>)

  datatype Payload =
    | CapabilityReport(deviceId: string, boardProfileId: string, firmwareVersion: string, capabilities: set<string>)
    | VoiceCommand(base64Valid: bool, contentLength: nat, byteLength: int, recordedAt: int, completedAt: int)
    | OtherPayload(content: string)

  datatype Envelope = Envelope(
    messageId: string,
    deviceId: string,
    correlationId: string,
    sequence: int,
    sentAt: int,
    payload: Payload,
    keyId: string,
    tag: string)

  datatype Arrival = Arrival(
    envelope: Envelope,
    encodedLength: nat,
    versionSupported: bool,
    envelopeValid: bool,
    payloadRegistered: bool,
    payloadValid: bool)

  datatype Crypto = Crypto(
    fingerprint: Secret -> string,
    authenticate: (Envelope, Secret) -> string,
    keyIdValid: string -> bool)

  datatype Reason =
    // registry changes
    | DeviceAlreadyProvisioned
    | DeviceUnknown
    | DeviceRevoked
    | KeyIdInvalid
    | SecretTooShort
    | SecretReused
    | SecretUnchanged
    | KeyIdUnchanged
    | KeyIdCollision
    | KeyIdMismatch
    | KeyIdRetired
    | KeyRotationLimitReached
    // messages
    | MessageTooLarge
    | ProtocolVersionUnsupported
    | EnvelopeSchemaInvalid
    | AuthenticationInvalid
    | MessageTimestampInvalid
    | PayloadTypeNotRegistered
    | PayloadSchemaInvalid
    | CapabilityReportMismatch
    | MicrophoneCapabilityRequired
    | AudioContentInvalid
    | AudioLengthMismatch
    | AudioTimestampInvalid
    | MessageIdReplayed
    | SequenceReplayed

  datatype Outcome<+T> = Ok(value: T) | Rejected(reason: Reason)

  // ---- The registry ----------------------------------------------------------------------------

  datatype Registry = Registry(keys: Store<string>, profiles: map<string, Profile>)

  const NO_DEVICES := Registry(Store(map[], {}), map[])

  datatype Status = Status(deviceId: string, keyId: string, revision: nat, revoked: bool)

  /** Every provisioned device has a profile; the default is never looked at. */
  function ProfileOf(r: Registry, deviceId: string): Profile {
    if deviceId in r.profiles then r.profiles[deviceId] else Profile("", "", {})
  }

  function StatusOf(r: Registry, deviceId: string): Status
    requires deviceId in r.keys.entries
  {
    var e := r.keys.entries[deviceId];
    Status(deviceId, e.keyId, e.revision, e.revoked)
  }

  function Provision(c: Crypto, r: Registry, deviceId: string, keyId: string, revoked: bool, profile: Profile, secret: Secret)
    : (Registry, Outcome<Status>)
  {
    if deviceId in r.keys.entries then (r, Rejected(DeviceAlreadyProvisioned))
    else if revoked then (r, Rejected(DeviceRevoked))
    else if !c.keyIdValid(keyId) then (r, Rejected(KeyIdInvalid))
    else if |secret| < MINIMUM_SECRET_BYTES then (r, Rejected(SecretTooShort))
    else if c.fingerprint(secret) in r.keys.used then (r, Rejected(SecretReused))
    else
      var after := Registry(Provisioned(r.keys, deviceId, keyId, secret, c.fingerprint), r.profiles[deviceId := profile]);
      (after, Ok(StatusOf(after, deviceId)))
  }

  function RotateKey(c: Crypto, r: Registry, deviceId: string, expectedKeyId: string, newKeyId: string, newSecret: Secret)
    : (Registry, Outcome<Status>)
  {
    if !c.keyIdValid(newKeyId) then (r, Rejected(KeyIdInvalid))
    else if |newSecret| < MINIMUM_SECRET_BYTES then (r, Rejected(SecretTooShort))
    else if newKeyId == expectedKeyId then (r, Rejected(KeyIdUnchanged))
    else if deviceId !in r.keys.entries then (r, Rejected(DeviceUnknown))
    else
      var e := r.keys.entries[deviceId];
      if e.revoked then (r, Rejected(DeviceRevoked))
      else if e.keyId == newKeyId then
        (r, if e.secret == newSecret then Ok(StatusOf(r, deviceId)) else Rejected(KeyIdCollision))
      else if e.keyId != expectedKeyId then (r, Rejected(KeyIdMismatch))
      else if newKeyId in e.retired then (r, Rejected(KeyIdRetired))
      else if |e.retired| >= MAXIMUM_RETIRED_KEYS then (r, Rejected(KeyRotationLimitReached))
      else if e.secret == newSecret then (r, Rejected(SecretUnchanged))
      else if c.fingerprint(newSecret) in r.keys.used then (r, Rejected(SecretReused))
      else
        var after := r.(keys := Rotated(r.keys, deviceId, newKeyId, newSecret, c.fingerprint));
        (after, Ok(StatusOf(after, deviceId)))
  }

  function Revoke(r: Registry, deviceId: string, expectedKeyId: string): (Registry, Outcome<Status>) {
    if deviceId !in r.keys.entries then (r, Rejected(DeviceUnknown))
    else
      var e := r.keys.entries[deviceId];
      if e.keyId != expectedKeyId then (r, Rejected(KeyIdMismatch))
      else if e.revoked then (r, Ok(StatusOf(r, deviceId)))
      else
        var after := r.(keys := Revoked(r.keys, deviceId));
        (after, Ok(StatusOf(after, deviceId)))
  }

  class DeviceRegistry {
    const crypto: Crypto
    var entries: map<string, Entry>
    var profiles: map<string, Profile>
    var used: set<string>

    ghost function Value(): Registry
      reads this
    {
      Registry(Store(entries, used), profiles)
    }

    constructor (crypto: Crypto)
      ensures Value() == NO_DEVICES && this.crypto == crypto
    {
      this.crypto := crypto;
      entries, profiles, used := map[], map[], {};
    }

    method ProvisionDevice(deviceId: string, keyId: string, revoked: bool, profile: Profile, secret: Secret)
      returns (outcome: Outcome<Status>)
      modifies this
      ensures (Value(), outcome) == Provision(crypto, old(Value()), deviceId, keyId, revoked, profile, secret)
    {
      if deviceId in entries {
        return Rejected(DeviceAlreadyProvisioned);
      }
      if revoked {
        return Rejected(DeviceRevoked);
      }
      if !crypto.keyIdValid(keyId) {
        return Rejected(KeyIdInvalid);
      }
      if |secret| < MINIMUM_SECRET_BYTES {
        return Rejected(SecretTooShort);
      }
      var digest := crypto.fingerprint(secret);
      if digest in used {
        return Rejected(SecretReused);
      }
      entries := entries[deviceId := Entry(keyId, secret, 1, false, {})];
      profiles := profiles[deviceId := profile];
      used := used + {digest};
      return Ok(Status(deviceId, keyId, 1, false));
    }

    method RotateDeviceKey(deviceId: string, expectedKeyId: string, newKeyId: string, newSecret: Secret)
      returns (outcome: Outcome<Status>)
      modifies this
      ensures (Value(), outcome) == RotateKey(crypto, old(Value()), deviceId, expectedKeyId, newKeyId, newSecret)
    {
      if !crypto.keyIdValid(newKeyId) {
        return Rejected(KeyIdInvalid);
      }
      if |newSecret| < MINIMUM_SECRET_BYTES {
        return Rejected(SecretTooShort);
      }
      if newKeyId == expectedKeyId {
        return Rejected(KeyIdUnchanged);
      }
      if deviceId !in entries {
        return Rejected(DeviceUnknown);
      }
      var e := entries[deviceId];
      if e.revoked {
        return Rejected(DeviceRevoked);
      }
      if e.keyId == newKeyId {
        if e.secret == newSecret {
          return Ok(Status(deviceId, e.keyId, e.revision, e.revoked));
        }
        return Rejected(KeyIdCollision);
      }
      if e.keyId != expectedKeyId {
        return Rejected(KeyIdMismatch);
      }
      if newKeyId in e.retired {
        return Rejected(KeyIdRetired);
      }
      if |e.retired| >= MAXIMUM_RETIRED_KEYS {
        return Rejected(KeyRotationLimitReached);
      }
      if e.secret == newSecret {
        return Rejected(SecretUnchanged);
      }
      var digest := crypto.fingerprint(newSecret);
      if digest in used {
        return Rejected(SecretReused);
      }
      var retired := e.retired + {e.keyId};
      entries := entries[deviceId := Entry(newKeyId, newSecret, e.revision + 1, e.revoked, retired)];
      used := used + {digest};
      return Ok(Status(deviceId, newKeyId, e.revision + 1, false));
    }

    method RevokeDevice(deviceId: string, expectedKeyId: string) returns (outcome: Outcome<Status>)
      modifies this
      ensures (Value(), outcome) == Revoke(old(Value()), deviceId, expectedKeyId)
    {
      if deviceId !in entries {
        return Rejected(DeviceUnknown);
      }
      var e := entries[deviceId];
      if e.keyId != expectedKeyId {
        return Rejected(KeyIdMismatch);
      }
      if !e.revoked {
        e := e.(revoked := true, revision := e.revision + 1);
        entries := entries[deviceId := e];
      }
      return Ok(Status(deviceId, e.keyId, e.revision, e.revoked));
    }
  }

  // ---- The verifier ----------------------------------------------------------------------------

  type Identity = (string, string)

  datatype Memory = Memory(
    ids: map<Identity, set<string>>,
    order: map<Identity, seq<string>>,
    lastSequences: map<Identity, int>)

  const NOTHING_SEEN := Memory(map[], map[], map[])

  function IdentityOf(e: Envelope): Identity { (e.deviceId, e.keyId) }

  function IdsOf(m: Memory, i: Identity): set<string> { if i in m.ids then m.ids[i] else {} }

  function OrderOf(m: Memory, i: Identity): seq<string> { if i in m.order then m.order[i] else [] }

  function LastOf(m: Memory, i: Identity): int { if i in m.lastSequences then m.lastSequences[i] else 0 }

  function CheckPayload(p: Payload, deviceId: string, profile: Profile): Option<Reason> {
    match p
    case CapabilityReport(device, board, firmware, capabilities) =>
      if device != deviceId || board != profile.boardProfileId || firmware != profile.firmwareVersion
         || capabilities != profile.capabilities
      then Some(CapabilityReportMismatch) else None
    case VoiceCommand(base64Valid, contentLength, byteLength, recordedAt, completedAt) =>
      if "microphone" !in profile.capabilities then Some(MicrophoneCapabilityRequired)
      else if !base64Valid then Some(AudioContentInvalid)
      else if contentLength != byteLength then Some(AudioLengthMismatch)
      else if completedAt < recordedAt then Some(AudioTimestampInvalid)
      else None
    case OtherPayload(_) => None
  }

  /** Everything `verify` checks before it looks at its own memory: no error means genuine. */
  function CheckGenuine(c: Crypto, r: Registry, a: Arrival, now: int): Option<Reason> {
    var e := a.envelope;
    if a.encodedLength > MAXIMUM_ENVELOPE_BYTES then Some(MessageTooLarge)
    else if !a.versionSupported then Some(ProtocolVersionUnsupported)
    else if !a.envelopeValid then Some(EnvelopeSchemaInvalid)
    else if e.deviceId !in r.keys.entries then Some(DeviceUnknown)
    else
      var entry := r.keys.entries[e.deviceId];
      if entry.revoked then Some(DeviceRevoked)
      else if e.keyId != entry.keyId then Some(KeyIdMismatch)
      else if e.tag != c.authenticate(e.(tag := ""), entry.secret) then Some(AuthenticationInvalid)
      else if !(now - 300 * SECOND <= e.sentAt <= now + 30 * SECOND) then Some(MessageTimestampInvalid)
      else if !a.payloadRegistered then Some(PayloadTypeNotRegistered)
      else if !a.payloadValid then Some(PayloadSchemaInvalid)
      else CheckPayload(e.payload, e.deviceId, ProfileOf(r, e.deviceId))
  }

  function Remember(m: Memory, i: Identity, messageId: string, sequence: int): Memory {
    var full := |OrderOf(m, i)| >= MAXIMUM_REPLAY_IDS;
    var order := if full then OrderOf(m, i)[1..] else OrderOf(m, i);
    var ids := if full then IdsOf(m, i) - {OrderOf(m, i)[0]} else IdsOf(m, i);
    Memory(m.ids[i := ids + {messageId}], m.order[i := order + [messageId]], m.lastSequences[i := sequence])
  }

  function Verify(c: Crypto, r: Registry, m: Memory, a: Arrival, now: int): (Memory, Outcome<Envelope>) {
    var e := a.envelope;
    var i := IdentityOf(e);
    match CheckGenuine(c, r, a, now)
    case Some(reason) => (m, Rejected(reason))
    case None =>
      var touched := m.(ids := m.ids[i := IdsOf(m, i)]);
      if e.messageId in IdsOf(m, i) then (touched, Rejected(MessageIdReplayed))
      else if e.sequence <= LastOf(m, i) then (touched, Rejected(SequenceReplayed))
      else (Remember(m, i, e.messageId, e.sequence), Ok(e))
  }

  /** The id set and its order agree for one identity: no removal can ever miss. */
  ghost predicate WindowCoherent(m: Memory, i: Identity) {
    && (forall x :: x in IdsOf(m, i) <==> x in OrderOf(m, i))
    && (forall j, k :: 0 <= j < k < |OrderOf(m, i)| ==> OrderOf(m, i)[j] != OrderOf(m, i)[k])
    && |OrderOf(m, i)| <= MAXIMUM_REPLAY_IDS
  }

  ghost predicate Coherent(m: Memory) {
    forall i :: WindowCoherent(m, i)
  }

  lemma VerifyKeepsWindows(c: Crypto, r: Registry, m: Memory, a: Arrival, now: int)
    requires Coherent(m)
    ensures Coherent(Verify(c, r, m, a, now).0)
  {
    hide CheckGenuine;
    var after := Verify(c, r, m, a, now).0;
    var at := IdentityOf(a.envelope);
    forall i ensures WindowCoherent(after, i) {
      assert WindowCoherent(m, i);
      if i == at && CheckGenuine(c, r, a, now).None? && Verify(c, r, m, a, now).1.Ok? {
        RememberKeepsWindow(m, i, a.envelope.messageId, a.envelope.sequence);
      }
    }
  }

  lemma RememberKeepsWindow(m: Memory, i: Identity, messageId: string, sequence: int)
    requires WindowCoherent(m, i) && messageId !in IdsOf(m, i)
    ensures WindowCoherent(Remember(m, i, messageId, sequence), i)
  {
    var q := OrderOf(m, i);
    var kept := if |q| >= MAXIMUM_REPLAY_IDS then q[1..] else q;
    var after := Remember(m, i, messageId, sequence);
    assert OrderOf(after, i) == kept + [messageId];
    if |q| >= MAXIMUM_REPLAY_IDS {
      assert q == [q[0]] + kept;
    }
  }

  class DeviceMessageVerifier {
    const registry: DeviceRegistry
    var ids: map<Identity, set<string>>
    var order: map<Identity, seq<string>>
    var lastSequences: map<Identity, int>

    ghost function Value(): Memory
      reads this
    {
      Memory(ids, order, lastSequences)
    }

    ghost predicate Valid()
      reads this
    {
      Coherent(Value())
    }

    constructor (registry: DeviceRegistry)
      ensures Valid() && Value() == NOTHING_SEEN && this.registry == registry
    {
      this.registry := registry;
      ids, order, lastSequences := map[], map[], map[];
    }

    method VerifyMessage(a: Arrival, now: int) returns (outcome: Outcome<Envelope>)
      requires Valid()
      modifies this
      ensures Valid()
      ensures (Value(), outcome) == Verify(registry.crypto, registry.Value(), old(Value()), a, now)
    {
      hide CheckGenuine, Coherent, Remember;
      VerifyKeepsWindows(registry.crypto, registry.Value(), Value(), a, now);
      var refusal := CheckGenuine(registry.crypto, Registry(Store(registry.entries, registry.used), registry.profiles), a, now);
      if refusal.Some? {
        return Rejected(refusal.value);
      }
      var e := a.envelope;
      var identity := IdentityOf(e);
      if identity !in ids {
        ids := ids[identity := {}];
      }
      assert ids == old(ids)[identity := IdsOf(old(Value()), identity)];
      if e.messageId in ids[identity] {
        return Rejected(MessageIdReplayed);
      }
      if e.sequence <= (if identity in lastSequences then lastSequences[identity] else 0) {
        return Rejected(SequenceReplayed);
      }
      assert IdsOf(Value(), identity) == IdsOf(old(Value()), identity);
      RememberTouched(old(Value()), Value(), identity, e.messageId, e.sequence);
      WindowHolds(old(Value()), identity);
      RememberMessage(identity, e.messageId, e.sequence);
      return Ok(e);
    }

    method RememberMessage(identity: Identity, messageId: string, sequence: int)
      requires identity in ids
      requires OrderOf(Value(), identity) != [] ==> OrderOf(Value(), identity)[0] in ids[identity]
      modifies this
      ensures Value() == Remember(old(Value()), identity, messageId, sequence)
    {
      if identity !in order {
        order := order[identity := []];
      }
      var messageIds := ids[identity];
      var messageOrder := order[identity];
      if |messageOrder| >= MAXIMUM_REPLAY_IDS {
        assert messageOrder[0] in messageIds;
        messageIds := messageIds - {messageOrder[0]};
        messageOrder := messageOrder[1..];
      }
      messageOrder := messageOrder + [messageId];
      messageIds := messageIds + {messageId};
      ids := ids[identity := messageIds];
      order := order[identity := messageOrder];
      lastSequences := lastSequences[identity := sequence];
      assert order == old(order)[identity := messageOrder];
    }
  }

  lemma RememberTouched(m: Memory, t: Memory, i: Identity, messageId: string, sequence: int)
    requires t == m.(ids := m.ids[i := IdsOf(m, i)])
    ensures Remember(t, i, messageId, sequence) == Remember(m, i, messageId, sequence)
  {
    var ids := Remember(m, i, messageId, sequence).ids[i];
    assert m.ids[i := IdsOf(m, i)][i := ids] == m.ids[i := ids];
  }

  lemma WindowHolds(m: Memory, i: Identity)
    requires Coherent(m)
    ensures OrderOf(m, i) != [] ==> OrderOf(m, i)[0] in IdsOf(m, i)
  {
    assert WindowCoherent(m, i);
  }
}
