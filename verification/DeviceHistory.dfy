/**
 Whole runs of the device registry and verifier together: any interleaving of provisioning, rotation,
 revocation and verification.
 */
module DeviceHistory {
  // The bounded window of message ids forgets, so it is the sequence numbers and the key lifecycle that
  // carry the replay guarantee.

  import opened Sequences
  import opened KeyStore
  import opened DeviceProtocol

  datatype Operation =
    | ProvisionOp(deviceId: string, keyId: string, revoked: bool, profile: Profile, secret: Secret)
    | RotateOp(deviceId: string, expectedKeyId: string, newKeyId: string, newSecret: Secret)
    | RevokeOp(deviceId: string, expectedKeyId: string)
    | VerifyOp(arrival: Arrival, now: int)

  datatype World = World(registry: Registry, memory: Memory, accepted: seq<Envelope>)

  const START := World(NO_DEVICES, NOTHING_SEEN, [])

  function Step(c: Crypto, w: World, op: Operation): World {
    match op
    case ProvisionOp(deviceId, keyId, revoked, profile, secret) =>
      w.(registry := Provision(c, w.registry, deviceId, keyId, revoked, profile, secret).0)
    case RotateOp(deviceId, expectedKeyId, newKeyId, newSecret) =>
      w.(registry := RotateKey(c, w.registry, deviceId, expectedKeyId, newKeyId, newSecret).0)
    case RevokeOp(deviceId, expectedKeyId) =>
      w.(registry := Revoke(w.registry, deviceId, expectedKeyId).0)
    case VerifyOp(arrival, now) =>
      var (memory, outcome) := Verify(c, w.registry, w.memory, arrival, now);
      match outcome
      case Ok(envelope) => w.(memory := memory, accepted := w.accepted + [envelope])
      case Rejected(_) => w.(memory := memory)
  }

  function Run(c: Crypto, w: World, ops: seq<Operation>): World {
    if ops == [] then w else Step(c, Run(c, w, ops[..|ops| - 1]), ops[|ops| - 1])
  }

  // ---- The registry over a run -----------------------------------------------------------------

  lemma StepChanges(c: Crypto, w: World, op: Operation)
    ensures Changes(w.registry.keys, Step(c, w, op).registry.keys, c.fingerprint)
  {
    hide Verify, StatusOf, Provisioned, Rotated, Revoked;
    var s := w.registry.keys;
    match op
    case ProvisionOp(deviceId, keyId, revoked, profile, secret) =>
      assert Step(c, w, op).registry.keys != s ==> ProvisionAllowed(s, deviceId, secret, c.fingerprint);
    case RotateOp(deviceId, expectedKeyId, newKeyId, newSecret) =>
      assert Step(c, w, op).registry.keys != s ==> RotationAllowed(s, deviceId, newKeyId, newSecret, c.fingerprint);
    case RevokeOp(deviceId, expectedKeyId) =>
      assert Step(c, w, op).registry.keys != s ==> RevocationAllowed(s, deviceId);
    case VerifyOp(_, _) =>
  }

  ghost predicate Good(c: Crypto, w: World) {
    && Accounts(w.registry.keys, c.fingerprint)
    && Coherent(w.memory)
    && SequencesRecorded(w)
    && WindowsRecent(w)
    && KeysKnown(w)
  }

  // ---- Sequences -------------------------------------------------------------------------------

  ghost predicate SequencesRecorded(w: World) {
    && (forall i, j :: 0 <= i < j < |w.accepted| && IdentityOf(w.accepted[i]) == IdentityOf(w.accepted[j])
          ==> w.accepted[i].sequence < w.accepted[j].sequence)
    && forall i :: 0 <= i < |w.accepted| ==> w.accepted[i].sequence <= LastOf(w.memory, IdentityOf(w.accepted[i]))
  }

  /** What an acceptance says, and what it changes. */
  lemma AcceptedFacts(c: Crypto, w: World, a: Arrival, now: int)
    ensures var (memory, outcome) := Verify(c, w.registry, w.memory, a, now);
            var e := a.envelope;
            && (outcome.Ok? ==>
                  && outcome.value == e && e.sequence > LastOf(w.memory, IdentityOf(e))
                  && e.messageId !in IdsOf(w.memory, IdentityOf(e))
                  && memory == Remember(w.memory, IdentityOf(e), e.messageId, e.sequence)
                  && e.deviceId in w.registry.keys.entries
                  && var entry := w.registry.keys.entries[e.deviceId];
                     !entry.revoked && e.keyId == entry.keyId && e.tag == c.authenticate(e.(tag := ""), entry.secret))
            && (outcome.Rejected? ==> forall i :: LastOf(memory, i) == LastOf(w.memory, i) && OrderOf(memory, i) == OrderOf(w.memory, i))
  {
    hide CheckPayload;
  }

  lemma LastAfterVerify(c: Crypto, w: World, a: Arrival, now: int, i: Identity)
    ensures var (memory, outcome) := Verify(c, w.registry, w.memory, a, now);
            LastOf(memory, i) ==
            if outcome.Ok? && i == IdentityOf(a.envelope) then a.envelope.sequence else LastOf(w.memory, i)
  {
    hide CheckGenuine;
  }

  lemma StepSequences(c: Crypto, w: World, op: Operation)
    requires SequencesRecorded(w)
    ensures SequencesRecorded(Step(c, w, op))
  {
    hide Verify, Provision, RotateKey, Revoke, LastOf, Remember;
    if op.VerifyOp? {
      AcceptedFacts(c, w, op.arrival, op.now);
      var after, e := Step(c, w, op), op.arrival.envelope;
      forall i | 0 <= i < |after.accepted|
        ensures after.accepted[i].sequence <= LastOf(after.memory, IdentityOf(after.accepted[i]))
      {
        if i < |w.accepted| {
          assert w.accepted[i].sequence <= LastOf(w.memory, IdentityOf(w.accepted[i]));
        }
        LastAfterVerify(c, w, op.arrival, op.now, IdentityOf(after.accepted[i]));
      }
      if after.accepted != w.accepted {
        forall i | 0 <= i < |w.accepted| && IdentityOf(w.accepted[i]) == IdentityOf(e)
          ensures w.accepted[i].sequence < e.sequence
        {
          assert w.accepted[i].sequence <= LastOf(w.memory, IdentityOf(w.accepted[i]));
        }
      }
    }
  }

  // ---- The replay window -----------------------------------------------------------------------

  /** The message ids accepted under one identity, in order. */
  function IdsAccepted(accepted: seq<Envelope>, i: Identity): seq<string> {
    if accepted == [] then []
    else
      var last := accepted[|accepted| - 1];
      IdsAccepted(accepted[..|accepted| - 1], i) + (if IdentityOf(last) == i then [last.messageId] else [])
  }

  ghost predicate WindowsRecent(w: World) {
    forall i :: OrderOf(w.memory, i) == Latest(IdsAccepted(w.accepted, i), MAXIMUM_REPLAY_IDS)
  }

  lemma IdsAcceptedAppend(accepted: seq<Envelope>, e: Envelope, i: Identity)
    ensures IdsAccepted(accepted + [e], i) ==
            if IdentityOf(e) == i then IdsAccepted(accepted, i) + [e.messageId] else IdsAccepted(accepted, i)
  {
    assert (accepted + [e])[..|accepted|] == accepted;
    assert IdsAccepted(accepted, i) + [] == IdsAccepted(accepted, i);
  }

  lemma StepWindows(c: Crypto, w: World, op: Operation)
    requires WindowsRecent(w)
    ensures WindowsRecent(Step(c, w, op))
  {
    hide Verify, Provision, RotateKey, Revoke, Latest, IdsAccepted, IdentityOf;
    if op.VerifyOp? {
      AcceptedFacts(c, w, op.arrival, op.now);
      var after, e := Step(c, w, op), op.arrival.envelope;
      if Verify(c, w.registry, w.memory, op.arrival, op.now).1.Ok? {
        forall i ensures OrderOf(after.memory, i) == Latest(IdsAccepted(after.accepted, i), MAXIMUM_REPLAY_IDS) {
          IdsAcceptedAppend(w.accepted, e, i);
          LatestAppend(IdsAccepted(w.accepted, i), e.messageId, MAXIMUM_REPLAY_IDS);
        }
      }
    }
  }

  // ---- Keys ------------------------------------------------------------------------------------

  ghost predicate KeyIsKnown(r: Registry, deviceId: string, keyId: string) {
    deviceId in r.keys.entries && (keyId == r.keys.entries[deviceId].keyId || keyId in r.keys.entries[deviceId].retired)
  }

  ghost predicate KeyIsRetired(r: Registry, deviceId: string, keyId: string) {
    deviceId in r.keys.entries && keyId in r.keys.entries[deviceId].retired
  }

  /** Every key a message was accepted under is current or retired, and a key that was followed by
      another one is retired. */
  ghost predicate KeysKnown(w: World) {
    && (forall i :: 0 <= i < |w.accepted| ==> KeyIsKnown(w.registry, w.accepted[i].deviceId, w.accepted[i].keyId))
    && forall i, j :: 0 <= i < j < |w.accepted| && w.accepted[i].deviceId == w.accepted[j].deviceId
         && w.accepted[i].keyId != w.accepted[j].keyId
         ==> KeyIsRetired(w.registry, w.accepted[i].deviceId, w.accepted[i].keyId)
  }

  lemma KnownStaysKnown(c: Crypto, w: World, op: Operation, deviceId: string, keyId: string)
    requires Evolves(w.registry.keys, Step(c, w, op).registry.keys)
    ensures KeyIsKnown(w.registry, deviceId, keyId) ==> KeyIsKnown(Step(c, w, op).registry, deviceId, keyId)
    ensures KeyIsRetired(w.registry, deviceId, keyId) ==> KeyIsRetired(Step(c, w, op).registry, deviceId, keyId)
  {
    hide Step;
  }

  lemma StepKeys(c: Crypto, w: World, op: Operation)
    requires KeysKnown(w) && Evolves(w.registry.keys, Step(c, w, op).registry.keys)
    ensures KeysKnown(Step(c, w, op))
  {
    hide Verify, Provision, RotateKey, Revoke, Evolves, KeyIsKnown, KeyIsRetired;
    var after := Step(c, w, op);
    if op.VerifyOp? {
      AcceptedFacts(c, w, op.arrival, op.now);
    }
    forall i | 0 <= i < |after.accepted|
      ensures KeyIsKnown(after.registry, after.accepted[i].deviceId, after.accepted[i].keyId)
    {
      if i < |w.accepted| {
        KnownStaysKnown(c, w, op, w.accepted[i].deviceId, w.accepted[i].keyId);
      } else {
        CurrentIsKnown(after.registry, after.accepted[i]);
      }
    }
    forall i, j | 0 <= i < j < |after.accepted| && after.accepted[i].deviceId == after.accepted[j].deviceId
        && after.accepted[i].keyId != after.accepted[j].keyId
      ensures KeyIsRetired(after.registry, after.accepted[i].deviceId, after.accepted[i].keyId)
    {
      if j < |w.accepted| {
        KnownStaysKnown(c, w, op, w.accepted[i].deviceId, w.accepted[i].keyId);
      } else {
        NotCurrentIsRetired(after.registry, after.accepted[i], after.accepted[j]);
      }
    }
  }

  lemma CurrentIsKnown(r: Registry, e: Envelope)
    requires e.deviceId in r.keys.entries && e.keyId == r.keys.entries[e.deviceId].keyId
    ensures KeyIsKnown(r, e.deviceId, e.keyId)
  {}

  lemma NotCurrentIsRetired(r: Registry, e: Envelope, f: Envelope)
    requires KeyIsKnown(r, e.deviceId, e.keyId) && e.deviceId == f.deviceId && e.keyId != f.keyId
    requires f.deviceId in r.keys.entries && f.keyId == r.keys.entries[f.deviceId].keyId
    ensures KeyIsRetired(r, e.deviceId, e.keyId)
  {}

  // ---- Every run -------------------------------------------------------------------------------

  lemma StepGood(c: Crypto, w: World, op: Operation)
    requires Good(c, w)
    ensures Good(c, Step(c, w, op)) && Evolves(w.registry.keys, Step(c, w, op).registry.keys)
  {
    hide Accounts, Coherent, SequencesRecorded, WindowsRecent, KeysKnown, Evolves, Verify, Provision, RotateKey, Revoke;
    StepChanges(c, w, op);
    ChangeAccounts(w.registry.keys, Step(c, w, op).registry.keys, c.fingerprint);
    ChangeEvolves(w.registry.keys, Step(c, w, op).registry.keys, c.fingerprint);
    StepSequences(c, w, op);
    StepWindows(c, w, op);
    StepKeys(c, w, op);
    if op.VerifyOp? {
      VerifyKeepsWindows(c, w.registry, w.memory, op.arrival, op.now);
    }
  }

  lemma StartGood(c: Crypto)
    ensures Good(c, START)
  {
    forall i ensures WindowCoherent(NOTHING_SEEN, i) {}
  }

  lemma EvolvesReflexive(s: Store<string>)
    ensures Evolves(s, s)
  {}

  lemma {:induction false} RunGood(c: Crypto, w: World, ops: seq<Operation>)
    requires Good(c, w)
    ensures Good(c, Run(c, w, ops)) && Evolves(w.registry.keys, Run(c, w, ops).registry.keys)
  {
    hide Accounts, Coherent, SequencesRecorded, WindowsRecent, KeysKnown, Evolves, Step;
    if ops == [] {
      EvolvesReflexive(w.registry.keys);
    } else {
      var before := Run(c, w, ops[..|ops| - 1]);
      RunGood(c, w, ops[..|ops| - 1]);
      StepGood(c, before, ops[|ops| - 1]);
      EvolvesTransitive(w.registry.keys, before.registry.keys, Run(c, w, ops).registry.keys, c.fingerprint);
    }
  }

  /** No signed message is accepted twice, whatever happens in between: the accepted envelopes are
      pairwise different, and under one key their sequences strictly increase. */
  lemma NoMessageAcceptedTwice(c: Crypto, ops: seq<Operation>)
    ensures var accepted := Run(c, START, ops).accepted;
            forall i, j :: 0 <= i < j < |accepted| ==>
              && accepted[i] != accepted[j]
              && (IdentityOf(accepted[i]) == IdentityOf(accepted[j]) ==> accepted[i].sequence < accepted[j].sequence)
  {
    hide Accounts, Coherent, WindowsRecent, KeysKnown, Evolves, Run;
    StartGood(c);
    RunGood(c, START, ops);
  }

  /** A retired key never returns: from the rotation that retired it on, no run makes the verifier
      accept a message of that device under it again. */
  lemma {:induction false} RetiredKeysNeverReturn(c: Crypto, w: World, ops: seq<Operation>, deviceId: string, keyId: string)
    requires Good(c, w) && deviceId in w.registry.keys.entries && keyId in w.registry.keys.entries[deviceId].retired
    ensures var after := Run(c, w, ops);
            && w.accepted <= after.accepted
            && forall i :: |w.accepted| <= i < |after.accepted| ==>
                 !(after.accepted[i].deviceId == deviceId && after.accepted[i].keyId == keyId)
  {
    hide Good, Evolves, Step;
    if ops != [] {
      var front, op := ops[..|ops| - 1], ops[|ops| - 1];
      var before := Run(c, w, front);
      RetiredKeysNeverReturn(c, w, front, deviceId, keyId);
      RunGood(c, w, front);
      StaysRetired(c, w, before, deviceId, keyId);
      AcceptedGrows(c, before, op);
      AcceptedUnderCurrentKey(c, before, op);
    }
  }

  lemma StaysRetired(c: Crypto, w: World, later: World, deviceId: string, keyId: string)
    requires Good(c, later) && Evolves(w.registry.keys, later.registry.keys)
    requires deviceId in w.registry.keys.entries && keyId in w.registry.keys.entries[deviceId].retired
    ensures deviceId in later.registry.keys.entries && later.registry.keys.entries[deviceId].keyId != keyId
  {
    hide Accounts, Coherent, SequencesRecorded, WindowsRecent, KeysKnown;
    CurrentKeyNotRetired(later.registry.keys, c.fingerprint, deviceId);
  }

  /** A rotation that succeeds retires the key it replaces, so the previous lemma applies to it from
      that very call on. */
  lemma RotationRetires(c: Crypto, w: World, op: Operation, ops: seq<Operation>)
    requires Good(c, w) && op.RotateOp? && op.deviceId in w.registry.keys.entries
    requires Step(c, w, op).registry != w.registry
    ensures var keyId, after := w.registry.keys.entries[op.deviceId].keyId, Run(c, Step(c, w, op), ops);
            && w.accepted <= after.accepted
            && forall i :: |w.accepted| <= i < |after.accepted| ==>
                 !(after.accepted[i].deviceId == op.deviceId && after.accepted[i].keyId == keyId)
  {
    hide Good, Evolves, Run;
    StepGood(c, w, op);
    RetiredKeysNeverReturn(c, Step(c, w, op), ops, op.deviceId, w.registry.keys.entries[op.deviceId].keyId);
  }

  lemma CurrentKeyNotRetired(s: Store<string>, fingerprint: Secret -> string, id: string)
    requires Accounts(s, fingerprint) && id in s.entries
    ensures s.entries[id].keyId !in s.entries[id].retired
  {
    hide TotalKeys;
    assert EntryAccounts(s.entries[id]);
  }

  lemma AcceptedGrows(c: Crypto, w: World, op: Operation)
    ensures var after := Step(c, w, op).accepted;
            w.accepted <= after && |after| <= |w.accepted| + 1
  {
    hide Verify, Provision, RotateKey, Revoke;
  }

  lemma AcceptedUnderCurrentKey(c: Crypto, w: World, op: Operation)
    ensures var after := Step(c, w, op).accepted;
            |after| > |w.accepted| ==>
              var e := after[|w.accepted|];
              && e.deviceId in w.registry.keys.entries && !w.registry.keys.entries[e.deviceId].revoked
              && e.keyId == w.registry.keys.entries[e.deviceId].keyId
              && e.tag == c.authenticate(e.(tag := ""), w.registry.keys.entries[e.deviceId].secret)
  {
    hide Verify, Provision, RotateKey, Revoke;
    if op.VerifyOp? {
      AcceptedFacts(c, w, op.arrival, op.now);
    }
  }

  /** Revocation is final: after it, no run makes the verifier accept from that device again. */
  lemma {:induction false} RevokedDeviceSilenced(c: Crypto, w: World, ops: seq<Operation>, deviceId: string)
    requires Good(c, w) && deviceId in w.registry.keys.entries && w.registry.keys.entries[deviceId].revoked
    ensures var after := Run(c, w, ops);
            && w.accepted <= after.accepted
            && forall i :: |w.accepted| <= i < |after.accepted| ==> after.accepted[i].deviceId != deviceId
  {
    hide Good, Evolves, Step;
    if ops != [] {
      var front, op := ops[..|ops| - 1], ops[|ops| - 1];
      var before := Run(c, w, front);
      RevokedDeviceSilenced(c, w, front, deviceId);
      RunGood(c, w, front);
      StaysRevoked(w.registry.keys, before.registry.keys, deviceId);
      AcceptedGrows(c, before, op);
      AcceptedUnderCurrentKey(c, before, op);
    }
  }

  lemma StaysRevoked(s: Store<string>, t: Store<string>, id: string)
    requires Evolves(s, t) && id in s.entries && s.entries[id].revoked
    ensures id in t.entries && t.entries[id].revoked
  {}

  /** The bounded window is exactly the latest 1024 message ids accepted under the identity, as a
      set and in order, without duplicates. */
  lemma WindowIsLatestIds(c: Crypto, ops: seq<Operation>, i: Identity)
    ensures var w := Run(c, START, ops);
            var window := Latest(IdsAccepted(w.accepted, i), MAXIMUM_REPLAY_IDS);
            && OrderOf(w.memory, i) == window && |window| <= MAXIMUM_REPLAY_IDS
            && (forall x :: x in IdsOf(w.memory, i) <==> x in window)
            && forall j, k :: 0 <= j < k < |window| ==> window[j] != window[k]
  {
    hide Accounts, SequencesRecorded, KeysKnown, Evolves, Run, Latest;
    StartGood(c);
    RunGood(c, START, ops);
    assert WindowCoherent(Run(c, START, ops).memory, i);
  }

  /** Registry accounting over every run. */
  lemma RegistryAccounts(c: Crypto, ops: seq<Operation>, deviceId: string)
    requires deviceId in Run(c, START, ops).registry.keys.entries
    ensures var keys := Run(c, START, ops).registry.keys;
            var e := keys.entries[deviceId];
            && e.revision == 1 + |e.retired| + (if e.revoked then 1 else 0)
            && e.keyId !in e.retired && |e.retired| <= MAXIMUM_RETIRED_KEYS
            && |keys.used| == TotalKeys(keys.entries)
  {
    hide Coherent, SequencesRecorded, WindowsRecent, KeysKnown, Evolves, Run, TotalKeys;
    StartGood(c);
    RunGood(c, START, ops);
    assert EntryAccounts(Run(c, START, ops).registry.keys.entries[deviceId]);
  }
}
