/** When each call of a pairing ceremony succeeds, and exactly what it then yields. */
module PairingOutcomes {
  import opened Options
  import opened Pairing

  /** Within its own window, and not over. */
  predicate IsLive(u: Setup, p: Progress, now: int) {
    p.state != Consumed && p.state != Cancelled && p.state != Expired && u.createdAt <= now < u.createdAt + u.ttl
  }

  /** Of the opposite role in the same ceremony on the same route, alive in a window of 30 to 120 seconds, with a
      valid key that is not a reflection of the own one. */
  predicate FitsPeer(c: Crypto, u: Setup, h: Hello, now: int) {
    && h.role != u.role && h.ceremonyId == u.ceremonyId && h.route == u.route && h.executionMode == "simulation"
    && h.createdAt + 30_000_000 <= h.expiresAt <= h.createdAt + 120_000_000 && h.createdAt <= now < h.expiresAt
    && h.publicKey != c.publicKeyOf(u.privateKey) && c.publicKeyValid(h.publicKey)
  }

  /** The hash of the two hellos, the device's first. */
  function HashOf(c: Crypto, u: Setup, peer: Hello): string {
    if u.role == Device then c.transcriptHash(HelloOf(c, u), peer) else c.transcriptHash(peer, HelloOf(c, u))
  }

  /** A hello is accepted exactly when it comes in time, is well formed, fits, and no other was accepted before;
      the answer is the fingerprint of the two hellos, and the first one starts the wait for confirmation. */
  lemma HelloAcceptedExactlyWhen(c: Crypto, u: Setup, p: Progress, h: Hello, now: int)
    requires Reachable(c, u, p)
    ensures var (after, outcome) := Receive(c, u, p, h, now);
            && (outcome.Ok? <==>
                  && IsLive(u, p, now) && c.schemaValid(h) && FitsPeer(c, u, h, now)
                  && (p.peerHello.None? || p.peerHello == Some(h)))
            && (outcome.Ok? ==>
                  && outcome.value == c.fingerprintOf(HashOf(c, u, h))
                  && after.peerHello == Some(h) && after.transcriptHash == Some(HashOf(c, u, h))
                  && after.fingerprint == Some(outcome.value)
                  && after.root == p.root && after.privateKey == p.privateKey
                  && after.state == (if p.peerHello.None? then AwaitingConfirmation else p.state))
  {}

  /** A confirmation that succeeds derives the root secret from the transcript and the shared secret. */
  lemma ConfirmationYields(c: Crypto, u: Setup, p: Progress, shown: string, now: int, source: string)
    requires Reachable(c, u, p) && Confirm(c, u, p, shown, now, source).1.Ok?
    ensures p.peerHello.Some? && c.exchange(u.privateKey, p.peerHello.value.publicKey).Some?
    ensures var after, shared := Confirm(c, u, p, shown, now, source).0, c.exchange(u.privateKey, p.peerHello.value.publicKey).value;
            after == p.(state := Established, root := Some(c.rootOf(HashOf(c, u, p.peerHello.value), shared)))
  {}

  /** A consumption succeeds exactly in an established ceremony in its window with a sink that succeeds. The sink
      gets the key id of the transcript and the root secret; then no secret is left. */
  lemma ConsumedExactlyWhen(c: Crypto, u: Setup, p: Progress, now: int, callbacks: seq<Operation>, sinkSucceeds: bool)
    requires Reachable(c, u, p)
    ensures var (after, outcome) := Consume(c, u, p, now, callbacks, sinkSucceeds);
            && (outcome.Ok? <==> p.state == Established && u.createdAt <= now < u.createdAt + u.ttl && sinkSucceeds)
            && (outcome.Ok? ==>
                  && p.peerHello.Some? && c.exchange(u.privateKey, p.peerHello.value.publicKey).Some?
                  && var hash := HashOf(c, u, p.peerHello.value);
                     && outcome.value
                        == (c.keyIdOf(hash), c.rootOf(hash, c.exchange(u.privateKey, p.peerHello.value.publicKey).value))
                     && after.state == Consumed && after.root.None? && after.privateKey.None?)
  {
    hide RunFrom;
  }

  /** A ceremony that is over stays as it is when it is cancelled; any other ends as cancelled with a valid reason,
      without secrets, and is left alone otherwise. */
  lemma CancelledExactlyWhen(c: Crypto, p: Progress, reasonCode: string)
    ensures var (after, outcome) := Cancel(c, p, reasonCode);
            var over := p.state == Consumed || p.state == Cancelled || p.state == Expired;
            && (outcome.Ok? <==> over || c.reasonCodeValid(reasonCode))
            && after == (if over || !c.reasonCodeValid(reasonCode) then p
                         else p.(state := Cancelled, reasonCode := Some(reasonCode), root := None, privateKey := None))
  {}

  /** From the end of the window on a ceremony that is not over expires, without secrets. */
  lemma ExpiredExactlyWhen(u: Setup, p: Progress, now: int)
    ensures var (after, outcome) := Expire(u, p, now);
            var over := p.state == Consumed || p.state == Cancelled || p.state == Expired;
            && (outcome.Ok? <==> now >= u.createdAt + u.ttl)
            && after == (if over || now < u.createdAt + u.ttl then p
                         else p.(state := Expired, reasonCode := Some("PAIRING_WINDOW_EXPIRED"), root := None, privateKey := None))
  {}

  /** A refused hello tells what was wrong. */
  lemma HelloRefusalsTell(c: Crypto, u: Setup, p: Progress, h: Hello, now: int)
    requires Reachable(c, u, p)
    ensures var outcome := Receive(c, u, p, h, now).1;
            outcome.Rejected? ==>
              match outcome.reason
              case Terminal => p.state == Consumed || p.state == Cancelled || p.state == Expired
              case NotStarted => now < u.createdAt
              case WindowExpired => now >= u.createdAt + u.ttl
              case HelloInvalid => !c.schemaValid(h)
              case PeerRoleInvalid => h.role == u.role
              case RouteMismatch => h.ceremonyId != u.ceremonyId || h.route != u.route || h.executionMode != "simulation"
              case PeerWindowInvalid => !(h.createdAt + 30_000_000 <= h.expiresAt <= h.createdAt + 120_000_000)
              case PeerExpired => !(h.createdAt <= now < h.expiresAt)
              case ReflectedKey => h.publicKey == c.publicKeyOf(u.privateKey)
              case PublicKeyInvalid => !c.publicKeyValid(h.publicKey)
              case PeerHelloChanged => p.peerHello.Some? && p.peerHello.value != h
              case _ => false
  {}

  /** So does a refused confirmation. */
  lemma ConfirmRefusalsTell(c: Crypto, u: Setup, p: Progress, shown: string, now: int, source: string)
    requires Reachable(c, u, p)
    ensures var outcome := Confirm(c, u, p, shown, now, source).1;
            outcome.Rejected? ==>
              match outcome.reason
              case Terminal => p.state == Consumed || p.state == Cancelled || p.state == Expired
              case NotStarted => now < u.createdAt
              case WindowExpired => now >= u.createdAt + u.ttl
              case NotAwaitingConfirmation => p.state != AwaitingConfirmation
              case ConfirmationSourceInvalid => source != "physical_display"
              case FingerprintMismatch => p.fingerprint != Some(shown)
              case SharedSecretInvalid => p.peerHello.Some? && c.exchange(u.privateKey, p.peerHello.value.publicKey).None?
              case _ => false
  {}
}
