/**
 The display-confirmed, one-shot pairing ceremony between a device and an edge.
 */
module Pairing {
  // X25519, SHA-256 and HKDF are function parameters (`Crypto`); what is assumed of them is written out
  // where it is used: that key exchange is symmetric, and that fingerprints tell transcripts apart.
  // Times count microseconds; hellos carry whole seconds.

  import opened Options

  const SECOND := 1_000_000
  const MINIMUM_PAIRING_TTL := 30 * SECOND
  const MAXIMUM_PAIRING_TTL := 120 * SECOND

  datatype Role = Device | Edge

  datatype PairingState = Offered | AwaitingConfirmation | Established | Consumed | Cancelled | Expired

  datatype Route = Route(organizationId: string, source: string, destination: string)

  datatype Hello = Hello(
    ceremonyId: string,
    role: Role,
    route: Route,
    bootId: string,
    publicKey: string,
    createdAt: int,
    expiresAt: int,
    executionMode: string)

  datatype Crypto = Crypto(
    publicKeyOf: string -> string,
    exchange: (string, string) -> Option<string>,
    transcriptHash: (Hello, Hello) -> string,
    fingerprintOf: string -> string,
    rootOf: (string, string) -> string,
    keyIdOf: string -> string,
    publicKeyValid: string -> bool,
    schemaValid: Hello -> bool,
    reasonCodeValid: string -> bool)

  datatype Reason =
    | Terminal
    | NotStarted
    | WindowExpired
    | HelloInvalid
    | PeerRoleInvalid
    | RouteMismatch
    | PeerWindowInvalid
    | PeerExpired
    | ReflectedKey
    | PublicKeyInvalid
    | PeerHelloChanged
    | TranscriptRolesInvalid
    | NotAwaitingConfirmation
    | ConfirmationSourceInvalid
    | FingerprintMismatch
    | SharedSecretInvalid
    | RootNotAvailable
    | SinkFailed
    | NotExpired
    | ReasonCodeInvalid

  datatype Outcome<+T> = Ok(value: T) | Rejected(reason: Reason)

  /** What a participant is created with. */
  datatype Setup = Setup(
    route: Route,
    role: Role,
    ceremonyId: string,
    bootId: string,
    createdAt: int,
    ttl: int,
    privateKey: string)

  /** What changes during the ceremony. */
  datatype Progress = Progress(
    state: PairingState,
    privateKey: Option<string>,
    peerHello: Option<Hello>,
    transcriptHash: Option<string>,
    fingerprint: Option<string>,
    root: Option<string>,
    reasonCode: Option<string>)

  function Begin(u: Setup): Progress {
    Progress(Offered, Some(u.privateKey), None, None, None, None, None)
  }

  predicate SetupValid(u: Setup) {
    MINIMUM_PAIRING_TTL <= u.ttl <= MAXIMUM_PAIRING_TTL
  }

  function ExpiresAt(u: Setup): int {
    u.createdAt + u.ttl
  }

  function WholeSeconds(t: int): int {
    t / SECOND * SECOND
  }

  /** The hello a participant sends; it depends on nothing but its setup. */
  function HelloOf(c: Crypto, u: Setup): Hello {
    Hello(u.ceremonyId, u.role, u.route, u.bootId, c.publicKeyOf(u.privateKey),
          WholeSeconds(u.createdAt), WholeSeconds(ExpiresAt(u)), "simulation")
  }

  predicate IsTerminal(state: PairingState) {
    state == Consumed || state == Cancelled || state == Expired
  }

  // ---- Steps -----------------------------------------------------------------------------------

  function ClearSecrets(p: Progress): Progress {
    p.(root := None, privateKey := None)
  }

  function Expire(u: Setup, p: Progress, now: int): (Progress, Outcome<()>) {
    if now < ExpiresAt(u) then (p, Rejected(NotExpired))
    else if IsTerminal(p.state) then (p, Ok(()))
    else (ClearSecrets(p).(state := Expired, reasonCode := Some("PAIRING_WINDOW_EXPIRED")), Ok(()))
  }

  /** Called first by every operation; noticing that the window is over expires the ceremony. */
  function RequireLive(u: Setup, p: Progress, now: int): (Progress, Outcome<()>) {
    if IsTerminal(p.state) then (p, Rejected(Terminal))
    else if now < u.createdAt then (p, Rejected(NotStarted))
    else if now >= ExpiresAt(u) then (Expire(u, p, now).0, Rejected(WindowExpired))
    else (p, Ok(()))
  }

  function OtherRole(role: Role): Role {
    if role == Device then Edge else Device
  }

  function ValidatePeer(c: Crypto, u: Setup, h: Hello, now: int): Outcome<()> {
    if h.role != OtherRole(u.role) then Rejected(PeerRoleInvalid)
    else if h.ceremonyId != u.ceremonyId || h.route != u.route || h.executionMode != "simulation" then Rejected(RouteMismatch)
    else if !(MINIMUM_PAIRING_TTL <= h.expiresAt - h.createdAt <= MAXIMUM_PAIRING_TTL) then Rejected(PeerWindowInvalid)
    else if now < h.createdAt || now >= h.expiresAt then Rejected(PeerExpired)
    else if h.publicKey == HelloOf(c, u).publicKey then Rejected(ReflectedKey)
    else if !c.publicKeyValid(h.publicKey) then Rejected(PublicKeyInvalid)
    else Ok(())
  }

  /** The two hellos put in role order; equal roles have no transcript. */
  function Transcript(first: Hello, second: Hello): Outcome<(Hello, Hello)> {
    if first.role == second.role then Rejected(TranscriptRolesInvalid)
    else if first.role == Device then Ok((first, second))
    else Ok((second, first))
  }

  function Receive(c: Crypto, u: Setup, p: Progress, h: Hello, now: int): (Progress, Outcome<string>) {
    match RequireLive(u, p, now)
    case (after, Rejected(reason)) => (after, Rejected(reason))
    case (_, Ok(_)) =>
      if !c.schemaValid(h) then (p, Rejected(HelloInvalid))
      else
        match ValidatePeer(c, u, h, now)
        case Rejected(reason) => (p, Rejected(reason))
        case Ok(_) =>
          if p.peerHello.Some? then
            (p, if p.peerHello.value == h && p.fingerprint.Some? then Ok(p.fingerprint.value) else Rejected(PeerHelloChanged))
          else
            match Transcript(HelloOf(c, u), h)
            case Rejected(reason) => (p, Rejected(reason))
            case Ok((device, edge)) =>
              var hash := c.transcriptHash(device, edge);
              var fingerprint := c.fingerprintOf(hash);
              (p.(peerHello := Some(h), transcriptHash := Some(hash), fingerprint := Some(fingerprint),
                  state := AwaitingConfirmation),
               Ok(fingerprint))
  }

  function Confirm(c: Crypto, u: Setup, p: Progress, fingerprint: string, now: int, source: string): (Progress, Outcome<()>) {
    match RequireLive(u, p, now)
    case (after, Rejected(reason)) => (after, Rejected(reason))
    case (_, Ok(_)) =>
      if p.state != AwaitingConfirmation then (p, Rejected(NotAwaitingConfirmation))
      else if source != "physical_display" then (p, Rejected(ConfirmationSourceInvalid))
      else if p.fingerprint != Some(fingerprint) then (p, Rejected(FingerprintMismatch))
      else if p.peerHello.None? || p.transcriptHash.None? || p.privateKey.None? then (p, Rejected(SharedSecretInvalid))
      else
        match c.exchange(p.privateKey.value, p.peerHello.value.publicKey)
        case None => (p, Rejected(SharedSecretInvalid))
        case Some(shared) =>
          (p.(root := Some(c.rootOf(p.transcriptHash.value, shared)), state := Established), Ok(()))
  }

  function Cancel(c: Crypto, p: Progress, reasonCode: string): (Progress, Outcome<()>) {
    if IsTerminal(p.state) then (p, Ok(()))
    else if !c.reasonCodeValid(reasonCode) then (p, Rejected(ReasonCodeInvalid))
    else (ClearSecrets(p).(state := Cancelled, reasonCode := Some(reasonCode)), Ok(()))
  }

  // ---- Calls, also from inside a sink ----------------------------------------------------------

  /** The sink of a consumption may call the participant back, to any depth, before it succeeds or
      fails. */
  datatype Operation =
    | ReceiveOp(hello: Hello, now: int)
    | ConfirmOp(fingerprint: string, now: int, source: string)
    | ConsumeOp(now: int, callbacks: seq<Operation>, sinkSucceeds: bool)
    | CancelOp(reasonCode: string)
    | ExpireOp(now: int)

  /** The checks before the root secret is handed to a sink; later ones are the sink's own. */
  function ReadyToConsume(u: Setup, p: Progress, now: int): (Progress, Outcome<()>) {
    match RequireLive(u, p, now)
    case (after, Rejected(reason)) => (after, Rejected(reason))
    case (_, Ok(_)) =>
      if p.state != Established || p.root.None? || p.transcriptHash.None? then (p, Rejected(RootNotAvailable)) else (p, Ok(()))
  }

  /** The sink runs while the ceremony is still established; only afterwards the secrets are cleared
      and the ceremony is marked as consumed, whatever the sink has done to it. */
  function Consume(c: Crypto, u: Setup, p: Progress, now: int, callbacks: seq<Operation>, sinkSucceeds: bool)
    : (Progress, Outcome<(string, string)>)
    decreases callbacks, 1
  {
    match ReadyToConsume(u, p, now)
    case (after, Rejected(reason)) => (after, Rejected(reason))
    case (_, Ok(_)) =>
      var called := RunFrom(c, u, p, callbacks);
      if !sinkSucceeds then (called, Rejected(SinkFailed))
      else (ClearSecrets(called).(state := Consumed), Ok((c.keyIdOf(p.transcriptHash.value), p.root.value)))
  }

  function Step(c: Crypto, u: Setup, p: Progress, op: Operation): Progress
    decreases op, 0
  {
    match op
    case ReceiveOp(hello, now) => Receive(c, u, p, hello, now).0
    case ConfirmOp(fingerprint, now, source) => Confirm(c, u, p, fingerprint, now, source).0
    case ConsumeOp(now, callbacks, sinkSucceeds) => Consume(c, u, p, now, callbacks, sinkSucceeds).0
    case CancelOp(reasonCode) => Cancel(c, p, reasonCode).0
    case ExpireOp(now) => Expire(u, p, now).0
  }

  function RunFrom(c: Crypto, u: Setup, p: Progress, ops: seq<Operation>): Progress
    decreases ops, 0
  {
    if ops == [] then p else Step(c, u, RunFrom(c, u, p, ops[..|ops| - 1]), ops[|ops| - 1])
  }

  function Run(c: Crypto, u: Setup, ops: seq<Operation>): Progress {
    RunFrom(c, u, Begin(u), ops)
  }

  // ---- The participant object ------------------------------------------------------------------

  /** What holds of every participant at every moment. */
  ghost predicate Reachable(c: Crypto, u: Setup, p: Progress) {
    && (p.root.Some? <==> p.state == Established)
    && (p.privateKey == if IsTerminal(p.state) then None else Some(u.privateKey))
    && (p.peerHello.Some? <==> p.transcriptHash.Some?)
    && (p.state == Offered ==> p.peerHello.None?)
    && (p.state == AwaitingConfirmation || p.state == Established || p.state == Consumed ==> p.peerHello.Some?)
    && (p.peerHello.None? ==> p.fingerprint.None?)
    && (p.peerHello.Some? ==> SawPeer(c, u, p, p.peerHello.value))
  }

  /** The transcript, fingerprint and, once established, root that follow from the peer's hello. */
  ghost predicate SawPeer(c: Crypto, u: Setup, p: Progress, h: Hello) {
    && h.role == OtherRole(u.role) && h.ceremonyId == u.ceremonyId && h.route == u.route
    && h.publicKey != c.publicKeyOf(u.privateKey)
    && var hash := c.transcriptHash(DeviceHello(c, u, h), EdgeHello(c, u, h));
       && p.transcriptHash == Some(hash) && p.fingerprint == Some(c.fingerprintOf(hash))
       && (p.root.Some? ==>
             && c.exchange(u.privateKey, h.publicKey).Some?
             && p.root == Some(c.rootOf(hash, c.exchange(u.privateKey, h.publicKey).value)))
  }

  function DeviceHello(c: Crypto, u: Setup, peer: Hello): Hello {
    if u.role == Device then HelloOf(c, u) else peer
  }

  function EdgeHello(c: Crypto, u: Setup, peer: Hello): Hello {
    if u.role == Edge then HelloOf(c, u) else peer
  }

  lemma ReceiveReachable(c: Crypto, u: Setup, p: Progress, h: Hello, now: int)
    requires Reachable(c, u, p)
    ensures Reachable(c, u, Receive(c, u, p, h, now).0) && KeepsPeer(p, Receive(c, u, p, h, now).0)
  {}

  lemma ConfirmReachable(c: Crypto, u: Setup, p: Progress, fingerprint: string, now: int, source: string)
    requires Reachable(c, u, p)
    ensures Reachable(c, u, Confirm(c, u, p, fingerprint, now, source).0)
    ensures KeepsPeer(p, Confirm(c, u, p, fingerprint, now, source).0)
  {}

  lemma EndReachable(c: Crypto, u: Setup, p: Progress, now: int, reasonCode: string)
    requires Reachable(c, u, p)
    ensures Reachable(c, u, Cancel(c, p, reasonCode).0) && KeepsPeer(p, Cancel(c, p, reasonCode).0)
    ensures Reachable(c, u, Expire(u, p, now).0) && KeepsPeer(p, Expire(u, p, now).0)
  {}

  /** Once known, the peer and the transcript stay. */
  ghost predicate KeepsPeer(p: Progress, q: Progress) {
    p.peerHello.Some? ==> q.peerHello == p.peerHello && q.transcriptHash == p.transcriptHash && q.fingerprint == p.fingerprint
  }

  lemma ConsumedReachable(c: Crypto, u: Setup, p: Progress, called: Progress)
    requires Reachable(c, u, p) && p.state == Established && Reachable(c, u, called) && KeepsPeer(p, called)
    ensures Reachable(c, u, ClearSecrets(called).(state := Consumed)) && KeepsPeer(p, ClearSecrets(called).(state := Consumed))
  {}

  lemma ReadyReachable(c: Crypto, u: Setup, p: Progress, now: int)
    requires Reachable(c, u, p)
    ensures var (after, ready) := ReadyToConsume(u, p, now);
            && Reachable(c, u, after) && KeepsPeer(p, after)
            && (ready.Ok? <==> u.createdAt <= now < ExpiresAt(u) && p.state == Established)
            && (ready.Ok? ==> after == p)
  {}

  lemma {:induction false} StepReachable(c: Crypto, u: Setup, p: Progress, op: Operation)
    requires Reachable(c, u, p)
    ensures Reachable(c, u, Step(c, u, p, op)) && KeepsPeer(p, Step(c, u, p, op))
    decreases op, 1
  {
    match op
    case ReceiveOp(hello, now) => ReceiveReachable(c, u, p, hello, now);
    case ConfirmOp(fingerprint, now, source) => ConfirmReachable(c, u, p, fingerprint, now, source);
    case ConsumeOp(now, callbacks, sinkSucceeds) =>
      hide Reachable, KeepsPeer, ReadyToConsume;
      ReadyReachable(c, u, p, now);
      RunFromReachable(c, u, p, callbacks);
      if ReadyToConsume(u, p, now).1.Ok? {
        ConsumedReachable(c, u, p, RunFrom(c, u, p, callbacks));
      }
    case CancelOp(reasonCode) => EndReachable(c, u, p, 0, reasonCode);
    case ExpireOp(now) => EndReachable(c, u, p, now, "");
  }

  lemma {:induction false} RunFromReachable(c: Crypto, u: Setup, p: Progress, ops: seq<Operation>)
    requires Reachable(c, u, p)
    ensures Reachable(c, u, RunFrom(c, u, p, ops)) && KeepsPeer(p, RunFrom(c, u, p, ops))
    decreases ops, 1
  {
    hide Reachable, Step;
    if ops != [] {
      RunFromReachable(c, u, p, ops[..|ops| - 1]);
      StepReachable(c, u, RunFrom(c, u, p, ops[..|ops| - 1]), ops[|ops| - 1]);
    }
  }

  class EphemeralPairingParticipant {
    const crypto: Crypto
    const setup: Setup
    var state: PairingState
    var privateKey: Option<string>
    var peerHello: Option<Hello>
    var transcriptHash: Option<string>
    var fingerprint: Option<string>
    var root: Option<string>
    var reasonCode: Option<string>

    ghost function Value(): Progress
      reads this
    {
      Progress(state, privateKey, peerHello, transcriptHash, fingerprint, root, reasonCode)
    }

    ghost predicate Valid()
      reads this
    {
      Reachable(crypto, setup, Value())
    }

    constructor (crypto: Crypto, setup: Setup)
      requires SetupValid(setup)
      ensures Valid() && Value() == Begin(setup) && this.crypto == crypto && this.setup == setup
    {
      this.crypto, this.setup := crypto, setup;
      state, privateKey := Offered, Some(setup.privateKey);
      peerHello, transcriptHash, fingerprint, root, reasonCode := None, None, None, None, None;
    }

    method ClearSecretsNow()
      modifies this`root, this`privateKey
      ensures root.None? && privateKey.None?
    {
      root, privateKey := None, None;
    }

    method ExpireNow(now: int) returns (outcome: Outcome<()>)
      requires Valid()
      modifies this
      ensures Valid() && (Value(), outcome) == Expire(setup, old(Value()), now)
    {
      EndReachable(crypto, setup, Value(), now, "");
      if now < ExpiresAt(setup) {
        return Rejected(NotExpired);
      }
      if !IsTerminal(state) {
        ClearSecretsNow();
        state := Expired;
        reasonCode := Some("PAIRING_WINDOW_EXPIRED");
      }
      return Ok(());
    }

    method RequireLiveNow(now: int) returns (outcome: Outcome<()>)
      requires Valid()
      modifies this
      ensures Valid() && (Value(), outcome) == RequireLive(setup, old(Value()), now)
    {
      if IsTerminal(state) {
        return Rejected(Terminal);
      }
      if now < setup.createdAt {
        return Rejected(NotStarted);
      }
      if now >= ExpiresAt(setup) {
        var expired := ExpireNow(now);
        return Rejected(WindowExpired);
      }
      return Ok(());
    }

    method ReceivePeerHello(hello: Hello, now: int) returns (outcome: Outcome<string>)
      requires Valid()
      modifies this
      ensures Valid() && (Value(), outcome) == Receive(crypto, setup, old(Value()), hello, now)
    {
      hide Reachable, ValidatePeer;
      ReceiveReachable(crypto, setup, Value(), hello, now);
      var live := RequireLiveNow(now);
      if live.Rejected? {
        return Rejected(live.reason);
      }
      if !crypto.schemaValid(hello) {
        return Rejected(HelloInvalid);
      }
      var checked := ValidatePeer(crypto, setup, hello, now);
      if checked.Rejected? {
        return Rejected(checked.reason);
      }
      if peerHello.Some? {
        if hello == peerHello.value {
          assert fingerprint.Some? by { FingerprintKnown(crypto, setup, Value()); }
          return Ok(fingerprint.value);
        }
        return Rejected(PeerHelloChanged);
      }
      var transcript := Transcript(HelloOf(crypto, setup), hello);
      if transcript.Rejected? {
        return Rejected(transcript.reason);
      }
      var hash := crypto.transcriptHash(transcript.value.0, transcript.value.1);
      peerHello := Some(hello);
      transcriptHash := Some(hash);
      fingerprint := Some(crypto.fingerprintOf(hash));
      state := AwaitingConfirmation;
      return Ok(fingerprint.value);
    }

    method ConfirmFingerprint(shown: string, now: int, source: string) returns (outcome: Outcome<()>)
      requires Valid()
      modifies this
      ensures Valid() && (Value(), outcome) == Confirm(crypto, setup, old(Value()), shown, now, source)
    {
      hide Reachable;
      ConfirmReachable(crypto, setup, Value(), shown, now, source);
      AwaitingIsReady(crypto, setup, Value());
      var live := RequireLiveNow(now);
      if live.Rejected? {
        return Rejected(live.reason);
      }
      if state != AwaitingConfirmation {
        return Rejected(NotAwaitingConfirmation);
      }
      if source != "physical_display" {
        return Rejected(ConfirmationSourceInvalid);
      }
      if fingerprint != Some(shown) {
        return Rejected(FingerprintMismatch);
      }
      assert peerHello.Some? && transcriptHash.Some? && privateKey.Some?;
      var shared := crypto.exchange(privateKey.value, peerHello.value.publicKey);
      if shared.None? {
        return Rejected(SharedSecretInvalid);
      }
      root := Some(crypto.rootOf(transcriptHash.value, shared.value));
      state := Established;
      return Ok(());
    }

    /** What a sink does with the participant before it returns. */
    method PerformCallbacks(callbacks: seq<Operation>)
      requires Valid()
      modifies this
      ensures Valid() && Value() == RunFrom(crypto, setup, old(Value()), callbacks)
      decreases callbacks, 0
    {
      hide Reachable, Step;
      if callbacks == [] {
        return;
      }
      PerformCallbacks(callbacks[..|callbacks| - 1]);
      PerformOne(callbacks[|callbacks| - 1]);
    }

    method PerformOne(op: Operation)
      requires Valid()
      modifies this
      ensures Valid() && Value() == Step(crypto, setup, old(Value()), op)
      decreases op, 0
    {
      hide Reachable, Receive, Confirm, Consume, Cancel, Expire;
      match op {
        case ReceiveOp(hello, now) => var r := ReceivePeerHello(hello, now);
        case ConfirmOp(shown, now, source) => var r := ConfirmFingerprint(shown, now, source);
        case ConsumeOp(now, callbacks, sinkSucceeds) => var r := ConsumeRootSecret(now, callbacks, sinkSucceeds);
        case CancelOp(code) => var r := CancelCeremony(code);
        case ExpireOp(now) => var r := ExpireNow(now);
      }
    }

    method ConsumeRootSecret(now: int, callbacks: seq<Operation>, sinkSucceeds: bool)
      returns (outcome: Outcome<(string, string)>)
      requires Valid()
      modifies this
      ensures Valid()
      ensures (Value(), outcome) == Consume(crypto, setup, old(Value()), now, callbacks, sinkSucceeds)
      decreases callbacks, 1
    {
      hide Reachable, KeepsPeer;
      ghost var before := Value();
      AwaitingIsReady(crypto, setup, Value());
      ReadyReachable(crypto, setup, Value(), now);
      var live := RequireLiveNow(now);
      if live.Rejected? {
        return Rejected(live.reason);
      }
      if state != Established {
        return Rejected(RootNotAvailable);
      }
      assert root.Some? && transcriptHash.Some?;
      var keyId := crypto.keyIdOf(transcriptHash.value);
      var secret := root.value;
      RunFromReachable(crypto, setup, before, callbacks);
      PerformCallbacks(callbacks);
      if !sinkSucceeds {
        return Rejected(SinkFailed);
      }
      ConsumedReachable(crypto, setup, before, Value());
      ClearSecretsNow();
      state := Consumed;
      return Ok((keyId, secret));
    }

    method CancelCeremony(code: string) returns (outcome: Outcome<()>)
      requires Valid()
      modifies this
      ensures Valid() && (Value(), outcome) == Cancel(crypto, old(Value()), code)
    {
      EndReachable(crypto, setup, Value(), 0, code);
      if IsTerminal(state) {
        return Ok(());
      }
      if !crypto.reasonCodeValid(code) {
        return Rejected(ReasonCodeInvalid);
      }
      ClearSecretsNow();
      state := Cancelled;
      reasonCode := Some(code);
      return Ok(());
    }
  }

  lemma FingerprintKnown(c: Crypto, u: Setup, p: Progress)
    requires Reachable(c, u, p)
    ensures p.peerHello.Some? ==> p.fingerprint.Some?
  {}

  /** The assertions in the code never fail. */
  lemma AwaitingIsReady(c: Crypto, u: Setup, p: Progress)
    requires Reachable(c, u, p)
    ensures p.state == AwaitingConfirmation ==> p.peerHello.Some? && p.transcriptHash.Some? && p.privateKey.Some?
    ensures p.state == Established ==> p.root.Some? && p.transcriptHash.Some?
  {}

  // ---- Whole ceremonies ------------------------------------------------------------------------

  /** Whether the call finds a ceremony that is not over although its window is. */
  predicate ComesLate(u: Setup, p: Progress, op: Operation) {
    (op.ReceiveOp? || op.ConfirmOp? || op.ConsumeOp?) && u.createdAt <= op.now && ExpiresAt(u) <= op.now && !IsTerminal(p.state)
  }

  /** Whether the call answers with an error. */
  predicate Refused(c: Crypto, u: Setup, p: Progress, op: Operation) {
    match op
    case ReceiveOp(hello, now) => Receive(c, u, p, hello, now).1.Rejected?
    case ConfirmOp(fingerprint, now, source) => Confirm(c, u, p, fingerprint, now, source).1.Rejected?
    case ConsumeOp(now, callbacks, sinkSucceeds) => Consume(c, u, p, now, callbacks, sinkSucceeds).1.Rejected?
    case CancelOp(reasonCode) => Cancel(c, p, reasonCode).1.Rejected?
    case ExpireOp(now) => Expire(u, p, now).1.Rejected?
  }

  /** Whether the call comes to run a sink. */
  predicate ReachesSink(u: Setup, p: Progress, op: Operation) {
    op.ConsumeOp? && ReadyToConsume(u, p, op.now).1.Ok?
  }

  /** How many consumptions complete during a call, those made by sinks included: how often a sink has
      taken the root secret. */
  function CompletedBy(c: Crypto, u: Setup, p: Progress, op: Operation): nat
    decreases op, 0
  {
    match op
    case ConsumeOp(now, callbacks, sinkSucceeds) =>
      if ReadyToConsume(u, p, now).1.Ok? then Completed(c, u, p, callbacks) + (if sinkSucceeds then 1 else 0) else 0
    case _ => 0
  }

  function Completed(c: Crypto, u: Setup, p: Progress, ops: seq<Operation>): nat
    decreases ops, 0
  {
    if ops == [] then 0
    else
      var front := ops[..|ops| - 1];
      Completed(c, u, p, front) + CompletedBy(c, u, RunFrom(c, u, p, front), ops[|ops| - 1])
  }

  /** How many consumptions complete although their own sink had completed one already. */
  function OvertakenBy(c: Crypto, u: Setup, p: Progress, op: Operation): nat
    decreases op, 0
  {
    match op
    case ConsumeOp(now, callbacks, sinkSucceeds) =>
      if ReadyToConsume(u, p, now).1.Ok? then
        Overtaken(c, u, p, callbacks) + (if sinkSucceeds && RunFrom(c, u, p, callbacks).state == Consumed then 1 else 0)
      else 0
    case _ => 0
  }

  function Overtaken(c: Crypto, u: Setup, p: Progress, ops: seq<Operation>): nat
    decreases ops, 0
  {
    if ops == [] then 0
    else
      var front := ops[..|ops| - 1];
      Overtaken(c, u, p, front) + OvertakenBy(c, u, RunFrom(c, u, p, front), ops[|ops| - 1])
  }

  function ConsumedNow(p: Progress, q: Progress): nat {
    if p.state != Consumed && q.state == Consumed then 1 else 0
  }

  lemma {:induction false} StepCompletes(c: Crypto, u: Setup, p: Progress, op: Operation)
    requires Reachable(c, u, p)
    ensures CompletedBy(c, u, p, op) == ConsumedNow(p, Step(c, u, p, op)) + OvertakenBy(c, u, p, op)
    ensures p.state == Consumed ==> Step(c, u, p, op).state == Consumed
    decreases op, 1
  {
    match op
    case ConsumeOp(now, callbacks, sinkSucceeds) =>
      ReadyReachable(c, u, p, now);
      hide Reachable, ReadyToConsume;
      ReadyWhenConsumed(u, p, now);
      RunCompletes(c, u, p, callbacks);
    case _ => SimpleStepNeverConsumes(c, u, p, op);
  }

  lemma ReadyWhenConsumed(u: Setup, p: Progress, now: int)
    ensures p.state == Consumed ==> ReadyToConsume(u, p, now).1.Rejected?
    ensures ReadyToConsume(u, p, now).1.Rejected? ==>
              (ReadyToConsume(u, p, now).0.state == Consumed <==> p.state == Consumed)
  {}

  lemma SimpleStepNeverConsumes(c: Crypto, u: Setup, p: Progress, op: Operation)
    requires !op.ConsumeOp?
    ensures Step(c, u, p, op).state == Consumed <==> p.state == Consumed
  {
    hide ValidatePeer;
  }

  lemma {:induction false} RunCompletes(c: Crypto, u: Setup, p: Progress, ops: seq<Operation>)
    requires Reachable(c, u, p)
    ensures Completed(c, u, p, ops) == ConsumedNow(p, RunFrom(c, u, p, ops)) + Overtaken(c, u, p, ops)
    ensures p.state == Consumed ==> RunFrom(c, u, p, ops).state == Consumed
    decreases ops, 1
  {
    hide Reachable, Step, CompletedBy, OvertakenBy;
    if ops != [] {
      var front := ops[..|ops| - 1];
      RunCompletes(c, u, p, front);
      RunFromReachable(c, u, p, front);
      StepCompletes(c, u, RunFrom(c, u, p, front), ops[|ops| - 1]);
    }
  }

  /** In every reachable state a root secret exists exactly when the ceremony is established, the
      private key exactly while it is not over, and the peer never changes once it is known. */
  lemma RunsAreReachable(c: Crypto, u: Setup, ops: seq<Operation>)
    ensures Reachable(c, u, Run(c, u, ops))
    ensures Run(c, u, ops).root.Some? <==> Run(c, u, ops).state == Established
    ensures Run(c, u, ops).privateKey.Some? <==> !IsTerminal(Run(c, u, ops).state)
  {
    hide RunFrom;
    RunFromReachable(c, u, Begin(u), ops);
  }

  /** How often a sink takes the root secret: never before the ceremony is consumed, then once, plus
      once for every consumption that completes although its own sink had completed another. */
  lemma TimesConsumed(c: Crypto, u: Setup, ops: seq<Operation>)
    ensures Completed(c, u, Begin(u), ops) == (if Run(c, u, ops).state == Consumed then 1 else 0) + Overtaken(c, u, Begin(u), ops)
  {
    hide RunFrom, Completed, Overtaken;
    RunCompletes(c, u, Begin(u), ops);
  }

  /** Sinks that do not call back to consume. */
  predicate SinksDoNotConsume(ops: seq<Operation>) {
    forall i, j :: 0 <= i < |ops| && ops[i].ConsumeOp? && 0 <= j < |ops[i].callbacks| ==> !ops[i].callbacks[j].ConsumeOp?
  }

  /** So it is taken at most once over any ceremony whose sinks do not consume again. */
  lemma ConsumedOnce(c: Crypto, u: Setup, ops: seq<Operation>)
    requires SinksDoNotConsume(ops)
    ensures Completed(c, u, Begin(u), ops) == if Run(c, u, ops).state == Consumed then 1 else 0
  {
    hide RunFrom, Completed, Overtaken;
    TimesConsumed(c, u, ops);
    NothingOvertaken(c, u, ops);
  }

  lemma {:induction false} NothingOvertaken(c: Crypto, u: Setup, ops: seq<Operation>)
    requires SinksDoNotConsume(ops)
    ensures Overtaken(c, u, Begin(u), ops) == 0
  {
    if ops != [] {
      var front, op := ops[..|ops| - 1], ops[|ops| - 1];
      assert SinksDoNotConsume(front) by {
        assert forall i :: 0 <= i < |front| ==> front[i] == ops[i];
      }
      NothingOvertaken(c, u, front);
      if op.ConsumeOp? {
        PlainCallbacks(c, u, RunFrom(c, u, Begin(u), front), op.callbacks);
        ReadyIsNotConsumed(u, RunFrom(c, u, Begin(u), front), op.now);
      }
    }
  }

  lemma ReadyIsNotConsumed(u: Setup, p: Progress, now: int)
    ensures ReadyToConsume(u, p, now).1.Ok? ==> p.state == Established
  {}

  lemma {:induction false} PlainCallbacks(c: Crypto, u: Setup, p: Progress, callbacks: seq<Operation>)
    requires forall j :: 0 <= j < |callbacks| ==> !callbacks[j].ConsumeOp?
    ensures Overtaken(c, u, p, callbacks) == 0
    ensures RunFrom(c, u, p, callbacks).state == Consumed <==> p.state == Consumed
  {
    hide Step;
    if callbacks != [] {
      var front := callbacks[..|callbacks| - 1];
      PlainCallbacks(c, u, p, front);
      SimpleStepNeverConsumes(c, u, RunFrom(c, u, p, front), callbacks[|callbacks| - 1]);
    }
  }

  /** A sink that consumes again takes the secret twice: an established ceremony in its window, whose
      sink makes one plain consumption before it succeeds. */
  lemma SinkCanConsumeTwice(c: Crypto, u: Setup, p: Progress, now: int)
    requires Reachable(c, u, p) && p.state == Established && u.createdAt <= now < ExpiresAt(u)
    ensures CompletedBy(c, u, p, ConsumeOp(now, [ConsumeOp(now, [], true)], true)) == 2
  {
    ReadyReachable(c, u, p, now);
    var inner := [ConsumeOp(now, [], true)];
    assert inner[..0] == [];
    assert CompletedBy(c, u, p, inner[0]) == 1;
    assert Completed(c, u, p, inner) == 1;
  }

  /** A refusal is no step of the ceremony: whatever was wrong (the role, the route, the source of the
      confirmation, a mistyped fingerprint), everything stays as it was, unless the call came after the
      window, which ends the ceremony; and a failing sink leaves what its own calls have made. */
  lemma RefusalsChangeNothing(c: Crypto, u: Setup, p: Progress, op: Operation)
    ensures Refused(c, u, p, op) ==>
              Step(c, u, p, op) == if ComesLate(u, p, op) then Expire(u, p, op.now).0
                                   else if ReachesSink(u, p, op) then RunFrom(c, u, p, op.callbacks)
                                   else p
  {
    hide ValidatePeer, RunFrom;
  }

  /** A confirmation succeeds exactly when it comes within the window from the display with the
      fingerprint shown, the peers' keys give a shared secret, and nothing was confirmed before. */
  lemma ConfirmedExactlyWhen(c: Crypto, u: Setup, p: Progress, shown: string, now: int, source: string)
    requires Reachable(c, u, p)
    ensures Confirm(c, u, p, shown, now, source).1.Ok? <==>
              && u.createdAt <= now < ExpiresAt(u) && p.state == AwaitingConfirmation
              && source == "physical_display" && p.fingerprint == Some(shown)
              && p.peerHello.Some? && c.exchange(u.privateKey, p.peerHello.value.publicKey).Some?
    ensures Confirm(c, u, p, shown, now, source).1.Ok? ==>
              && Confirm(c, u, p, shown, now, source).0.state == Established
              && Confirm(c, u, p, shown, now, source).0.peerHello == p.peerHello
  {}

  lemma TerminalStep(c: Crypto, u: Setup, p: Progress, op: Operation)
    requires IsTerminal(p.state)
    ensures Step(c, u, p, op) == p
  {
    hide ValidatePeer;
  }

  /** The three terminal states absorb: no call changes anything any more. */
  lemma {:induction false} TerminalAbsorbs(c: Crypto, u: Setup, p: Progress, ops: seq<Operation>, n: nat)
    requires n <= |ops| && IsTerminal(RunFrom(c, u, p, ops[..n]).state)
    ensures RunFrom(c, u, p, ops) == RunFrom(c, u, p, ops[..n])
    decreases |ops|
  {
    hide Step;
    if n == |ops| {
      assert ops[..n] == ops;
    } else {
      var front := ops[..|ops| - 1];
      assert front[..n] == ops[..n];
      TerminalAbsorbs(c, u, p, front, n);
      TerminalStep(c, u, RunFrom(c, u, p, front), ops[|ops| - 1]);
    }
  }

  /** What is left of that for a call during which its own sink ends the ceremony: the sink's calls end
      it for good, unless the sink succeeds, and then the ceremony counts as consumed. */
  lemma SinkEndsCeremony(c: Crypto, u: Setup, p: Progress, op: Operation)
    requires ReachesSink(u, p, op) && IsTerminal(RunFrom(c, u, p, op.callbacks).state)
    ensures var ended := RunFrom(c, u, p, op.callbacks);
            && (Step(c, u, p, op).state == ended.state <==> !op.sinkSucceeds || ended.state == Consumed)
            && (op.sinkSucceeds ==> Step(c, u, p, op).state == Consumed)
            && (!op.sinkSucceeds ==> Step(c, u, p, op) == ended)
  {
    hide RunFrom, ReadyToConsume;
  }

  // ---- Two parties -----------------------------------------------------------------------------

  /** Key exchange gives both sides the same secret (section 6.1 of RFC 7748). */
  ghost predicate ExchangeSymmetric(c: Crypto) {
    forall a, b :: c.exchange(a, c.publicKeyOf(b)) == c.exchange(b, c.publicKeyOf(a))
  }

  /** Peers of opposite roles that hold each other's hello compute the same transcript hash and
      fingerprint, and once both have confirmed, the same key id and root secret. */
  lemma PeersAgree(c: Crypto, u: Setup, v: Setup, us: seq<Operation>, vs: seq<Operation>)
    requires ExchangeSymmetric(c)
    requires Run(c, u, us).peerHello == Some(HelloOf(c, v)) && Run(c, v, vs).peerHello == Some(HelloOf(c, u))
    ensures var p, q := Run(c, u, us), Run(c, v, vs);
            && p.transcriptHash == q.transcriptHash && p.transcriptHash.Some?
            && p.fingerprint == q.fingerprint && p.fingerprint.Some?
            && (p.state == Established && q.state == Established ==> p.root == q.root && p.root.Some?)
  {
    hide Run;
    RunsAreReachable(c, u, us);
    RunsAreReachable(c, v, vs);
  }

  /** What the sinks receive: the same key id and root on both sides. */
  lemma ConsumedSecretsAgree(c: Crypto, u: Setup, v: Setup, us: seq<Operation>, vs: seq<Operation>, now: int, later: int,
                             callbacks: seq<Operation>, callbacksToo: seq<Operation>)
    requires ExchangeSymmetric(c)
    requires Run(c, u, us).peerHello == Some(HelloOf(c, v)) && Run(c, v, vs).peerHello == Some(HelloOf(c, u))
    requires Consume(c, u, Run(c, u, us), now, callbacks, true).1.Ok?
    requires Consume(c, v, Run(c, v, vs), later, callbacksToo, true).1.Ok?
    ensures Consume(c, u, Run(c, u, us), now, callbacks, true).1 == Consume(c, v, Run(c, v, vs), later, callbacksToo, true).1
  {
    hide Run, RunFrom;
    PeersAgree(c, u, v, us, vs);
  }

  /** No two transcripts share a displayed fingerprint. */
  ghost predicate FingerprintsDistinguish(c: Crypto) {
    forall a, b, d, e :: c.fingerprintOf(c.transcriptHash(a, b)) == c.fingerprintOf(c.transcriptHash(d, e)) ==> a == d && b == e
  }

  /** Comparing displays works: equal fingerprints on the two sides mean that each side really holds
      the other's hello, whatever was carried in between. */
  lemma EqualFingerprintsMeanSamePeers(c: Crypto, u: Setup, v: Setup, us: seq<Operation>, vs: seq<Operation>)
    requires FingerprintsDistinguish(c) && u.role == Device && v.role == Edge
    requires Run(c, u, us).fingerprint.Some? && Run(c, u, us).fingerprint == Run(c, v, vs).fingerprint
    ensures Run(c, u, us).peerHello == Some(HelloOf(c, v)) && Run(c, v, vs).peerHello == Some(HelloOf(c, u))
  {
    hide Run, HelloOf;
    RunsAreReachable(c, u, us);
    RunsAreReachable(c, v, vs);
  }

  /** A participant's own hello always has a window its peer finds valid, although it is cut to
      whole seconds. */
  lemma OwnWindowIsValid(c: Crypto, u: Setup)
    requires SetupValid(u)
    ensures MINIMUM_PAIRING_TTL <= HelloOf(c, u).expiresAt - HelloOf(c, u).createdAt <= MAXIMUM_PAIRING_TTL
  {
    var a, b := u.createdAt / SECOND, ExpiresAt(u) / SECOND;
    assert a * SECOND <= u.createdAt < a * SECOND + SECOND;
    assert b * SECOND <= ExpiresAt(u) < b * SECOND + SECOND;
  }

  /** An honest exchange goes through: while both windows are open, fresh participants of opposite
      roles on the same route accept each other's hello and show the same fingerprint. */
  lemma HonestHellosAccepted(c: Crypto, u: Setup, v: Setup, now: int)
    requires SetupValid(u) && SetupValid(v) && u.role != v.role && u.route == v.route && u.ceremonyId == v.ceremonyId
    requires c.publicKeyOf(u.privateKey) != c.publicKeyOf(v.privateKey)
    requires c.schemaValid(HelloOf(c, u)) && c.schemaValid(HelloOf(c, v))
    requires c.publicKeyValid(c.publicKeyOf(u.privateKey)) && c.publicKeyValid(c.publicKeyOf(v.privateKey))
    requires u.createdAt <= now < WholeSeconds(ExpiresAt(u)) && v.createdAt <= now < WholeSeconds(ExpiresAt(v))
    ensures var atU := Receive(c, u, Begin(u), HelloOf(c, v), now).1;
            var atV := Receive(c, v, Begin(v), HelloOf(c, u), now).1;
            atU.Ok? && atU == atV
  {
    hide WholeSeconds;
    OwnWindowIsValid(c, u);
    OwnWindowIsValid(c, v);
    SecondsBelow(u.createdAt);
    SecondsBelow(v.createdAt);
    SecondsBelow(ExpiresAt(u));
    SecondsBelow(ExpiresAt(v));
  }

  lemma SecondsBelow(t: int)
    ensures WholeSeconds(t) <= t
  {}
}
