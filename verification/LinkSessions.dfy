/**
 Link credentials and short session leases: a vault with one root credential per route, and the
 authority that issues leases, accepts them from a peer, and remembers the latest 1024.
 */
module LinkSessions {
  // HMAC, HKDF and SHA-256 are function parameters (`Crypto`) of which only determinism is used; so are
  // the identifier and schema checks. A contract is modelled as its lease and its tag. Times count
  // microseconds.

  import opened KeyStore

  const MINIMUM_ROOT_SECRET_BYTES := 32
  const SESSION_SALT_BYTES := 32
  const SECOND := 1_000_000
  const MINIMUM_SESSION_TTL := 10 * SECOND
  const MAXIMUM_SESSION_TTL := 120 * SECOND
  const MAXIMUM_SESSION_CLOCK_SKEW := 30 * SECOND
  const MAXIMUM_LEASE_RECORDS := 1_024

  datatype Route = Route(organizationId: string, source: string, destination: string)

  datatype Lease = Lease(
    leaseId: string,
    sessionId: string,
    route: Route,
    keyId: string,
    revision: int,
    salt: seq<bv8>,
    issuedAt: int,
    expiresAt: int)

  datatype Contract = Contract(lease: Lease, tag: string)

  datatype SessionKey = SessionKey(keyId: string, route: Route, sessionId: string, key: seq<bv8>)

  /** What a session key is derived for, beside the salt. */
  datatype KeyInfo = KeyInfo(route: Route, revision: int, keyId: string, leaseId: string, sessionId: string)

  datatype Session = Session(lease: Lease, contract: Contract, key: SessionKey)

  datatype Crypto = Crypto(
    fingerprint: Secret -> string,
    authenticate: (Lease, Secret) -> string,
    hkdf: (seq<bv8>, KeyInfo, Secret) -> seq<bv8>,
    requestFingerprint: (string, string, Route, int, int) -> string,
    contractFingerprint: Contract -> string,
    keyIdValid: string -> bool,
    routeValid: Route -> bool,
    schemaValid: Contract -> bool)

  datatype Reason =
    | AlreadyProvisioned
    | RouteInvalid
    | KeyIdInvalid
    | SecretTooShort
    | SecretReused
    | SecretUnchanged
    | CredentialUnknown
    | CredentialRevoked
    | KeyIdCollision
    | KeyIdUnchanged
    | KeyIdMismatch
    | KeyIdRetired
    | RotationLimit
    | IdentityStale
    | AuthenticationInvalid
    | SessionExpired
    | TtlInvalid
    | LeaseIdReused
    | SaltLengthInvalid
    | SchemaInvalid
    | TimeInvalid

  datatype Outcome<+T> = Ok(value: T) | Rejected(reason: Reason)

  datatype Status = Status(route: Route, keyId: string, revision: nat, revoked: bool)

  type Vault = Store<Route>

  // ---- The vault -------------------------------------------------------------------------------

  function StatusOf(v: Vault, route: Route): Status
    requires route in v.entries
  {
    var e := v.entries[route];
    Status(route, e.keyId, e.revision, e.revoked)
  }

  function Provision(c: Crypto, v: Vault, route: Route, keyId: string, secret: Secret): (Vault, Outcome<Status>) {
    if route in v.entries then (v, Rejected(AlreadyProvisioned))
    else if !c.routeValid(route) then (v, Rejected(RouteInvalid))
    else if !c.keyIdValid(keyId) then (v, Rejected(KeyIdInvalid))
    else if |secret| < MINIMUM_ROOT_SECRET_BYTES then (v, Rejected(SecretTooShort))
    else if c.fingerprint(secret) in v.used then (v, Rejected(SecretReused))
    else
      var after := Provisioned(v, route, keyId, secret, c.fingerprint);
      (after, Ok(StatusOf(after, route)))
  }

  function Rotate(c: Crypto, v: Vault, route: Route, expectedKeyId: string, newKeyId: string, newSecret: Secret)
    : (Vault, Outcome<Status>)
  {
    if route !in v.entries then (v, Rejected(CredentialUnknown))
    else
      var e := v.entries[route];
      if e.revoked then (v, Rejected(CredentialRevoked))
      else if |newSecret| < MINIMUM_ROOT_SECRET_BYTES then (v, Rejected(SecretTooShort))
      else if !c.keyIdValid(newKeyId) then (v, Rejected(KeyIdInvalid))
      else if e.keyId == newKeyId then
        (v, if e.keyId == expectedKeyId then Rejected(KeyIdUnchanged)
            else if e.secret == newSecret then Ok(StatusOf(v, route))
            else Rejected(KeyIdCollision))
      else if e.keyId != expectedKeyId then (v, Rejected(KeyIdMismatch))
      else if newKeyId in e.retired then (v, Rejected(KeyIdRetired))
      else if |e.retired| >= MAXIMUM_RETIRED_KEYS then (v, Rejected(RotationLimit))
      else if e.secret == newSecret then (v, Rejected(SecretUnchanged))
      else if c.fingerprint(newSecret) in v.used then (v, Rejected(SecretReused))
      else
        var after := Rotated(v, route, newKeyId, newSecret, c.fingerprint);
        (after, Ok(StatusOf(after, route)))
  }

  function Revoke(v: Vault, route: Route, expectedKeyId: string): (Vault, Outcome<Status>) {
    if route !in v.entries then (v, Rejected(CredentialUnknown))
    else
      var e := v.entries[route];
      if e.keyId != expectedKeyId then (v, Rejected(KeyIdMismatch))
      else if e.revoked then (v, Ok(StatusOf(v, route)))
      else
        var after := Revoked(v, route);
        (after, Ok(StatusOf(after, route)))
  }

  /** The entry a lease may still use: not revoked, same key, same revision. */
  function LiveEntry(v: Vault, lease: Lease): Outcome<Entry> {
    if lease.route !in v.entries then Rejected(CredentialUnknown)
    else
      var e := v.entries[lease.route];
      if e.revoked then Rejected(CredentialRevoked)
      else if e.keyId != lease.keyId || e.revision != lease.revision then Rejected(IdentityStale)
      else Ok(e)
  }

  function DerivedKey(c: Crypto, lease: Lease, secret: Secret): seq<bv8> {
    c.hkdf(lease.salt, KeyInfo(lease.route, lease.revision, lease.keyId, lease.leaseId, lease.sessionId), secret)
  }

  function DeriveSessionKey(c: Crypto, v: Vault, lease: Lease): Outcome<SessionKey> {
    match LiveEntry(v, lease)
    case Rejected(reason) => Rejected(reason)
    case Ok(e) => Ok(SessionKey(lease.keyId, lease.route, lease.sessionId, DerivedKey(c, lease, e.secret)))
  }

  function AuthenticateLease(c: Crypto, v: Vault, lease: Lease): Outcome<string> {
    match LiveEntry(v, lease)
    case Rejected(reason) => Rejected(reason)
    case Ok(e) => Ok(c.authenticate(lease, e.secret))
  }

  function ActiveSessionKey(c: Crypto, v: Vault, session: Session, now: int): Outcome<SessionKey> {
    if now < session.lease.issuedAt || now >= session.lease.expiresAt then Rejected(SessionExpired)
    else DeriveSessionKey(c, v, session.lease)
  }

  class LinkCredentialVault {
    const crypto: Crypto
    var entries: map<Route, Entry>
    var used: set<string>

    ghost function Value(): Vault
      reads this
    {
      Store(entries, used)
    }

    constructor (crypto: Crypto)
      ensures Value() == Store(map[], {}) && this.crypto == crypto
    {
      this.crypto := crypto;
      entries, used := map[], {};
    }

    method ProvisionCredential(route: Route, keyId: string, secret: Secret) returns (outcome: Outcome<Status>)
      modifies this
      ensures (Value(), outcome) == Provision(crypto, old(Value()), route, keyId, secret)
    {
      if route in entries {
        return Rejected(AlreadyProvisioned);
      }
      if !crypto.routeValid(route) {
        return Rejected(RouteInvalid);
      }
      if !crypto.keyIdValid(keyId) {
        return Rejected(KeyIdInvalid);
      }
      if |secret| < MINIMUM_ROOT_SECRET_BYTES {
        return Rejected(SecretTooShort);
      }
      var digest := crypto.fingerprint(secret);
      if digest in used {
        return Rejected(SecretReused);
      }
      entries := entries[route := Entry(keyId, secret, 1, false, {})];
      used := used + {digest};
      return Ok(Status(route, keyId, 1, false));
    }

    method RotateCredential(route: Route, expectedKeyId: string, newKeyId: string, newSecret: Secret)
      returns (outcome: Outcome<Status>)
      modifies this
      ensures (Value(), outcome) == Rotate(crypto, old(Value()), route, expectedKeyId, newKeyId, newSecret)
    {
      if route !in entries {
        return Rejected(CredentialUnknown);
      }
      var e := entries[route];
      if e.revoked {
        return Rejected(CredentialRevoked);
      }
      if |newSecret| < MINIMUM_ROOT_SECRET_BYTES {
        return Rejected(SecretTooShort);
      }
      if !crypto.keyIdValid(newKeyId) {
        return Rejected(KeyIdInvalid);
      }
      if e.keyId == newKeyId {
        if e.keyId != expectedKeyId {
          if e.secret == newSecret {
            return Ok(Status(route, e.keyId, e.revision, e.revoked));
          }
          return Rejected(KeyIdCollision);
        }
        return Rejected(KeyIdUnchanged);
      }
      if e.keyId != expectedKeyId {
        return Rejected(KeyIdMismatch);
      }
      if newKeyId in e.retired {
        return Rejected(KeyIdRetired);
      }
      if |e.retired| >= MAXIMUM_RETIRED_KEYS {
        return Rejected(RotationLimit);
      }
      if e.secret == newSecret {
        return Rejected(SecretUnchanged);
      }
      var digest := crypto.fingerprint(newSecret);
      if digest in used {
        return Rejected(SecretReused);
      }
      entries := entries[route := Entry(newKeyId, newSecret, e.revision + 1, e.revoked, e.retired + {e.keyId})];
      used := used + {digest};
      return Ok(Status(route, newKeyId, e.revision + 1, e.revoked));
    }

    method RevokeCredential(route: Route, expectedKeyId: string) returns (outcome: Outcome<Status>)
      modifies this
      ensures (Value(), outcome) == Revoke(old(Value()), route, expectedKeyId)
    {
      if route !in entries {
        return Rejected(CredentialUnknown);
      }
      var e := entries[route];
      if e.keyId != expectedKeyId {
        return Rejected(KeyIdMismatch);
      }
      if !e.revoked {
        e := e.(revoked := true, revision := e.revision + 1);
        entries := entries[route := e];
      }
      return Ok(Status(route, e.keyId, e.revision, e.revoked));
    }
  }

  // ---- The authority ---------------------------------------------------------------------------

  datatype Authority = Authority(records: map<string, (string, Session)>, order: seq<string>)

  const NO_RECORDS := Authority(map[], [])

  function Remember(a: Authority, leaseId: string, digest: string, session: Session): Authority {
    var full := |a.order| >= MAXIMUM_LEASE_RECORDS;
    var order := if full then a.order[1..] else a.order;
    var records := if full then a.records - {a.order[0]} else a.records;
    Authority(records[leaseId := (digest, session)], order + [leaseId])
  }

  function ValidateContract(c: Crypto, contract: Contract, receivedAt: int): Outcome<()> {
    var lease := contract.lease;
    var duration := lease.expiresAt - lease.issuedAt;
    if !c.schemaValid(contract) then Rejected(SchemaInvalid)
    else if !(MINIMUM_SESSION_TTL <= duration <= MAXIMUM_SESSION_TTL)
            || lease.issuedAt > receivedAt + MAXIMUM_SESSION_CLOCK_SKEW
            || receivedAt >= lease.expiresAt then Rejected(TimeInvalid)
    else if |lease.salt| != SESSION_SALT_BYTES then Rejected(SaltLengthInvalid)
    else Ok(())
  }

  /** A lease id seen before: the same request gets its session again while it is active. */
  function Recall(c: Crypto, v: Vault, a: Authority, leaseId: string, digest: string, now: int): Outcome<Session>
    requires leaseId in a.records
  {
    var (known, session) := a.records[leaseId];
    if known != digest then Rejected(LeaseIdReused)
    else
      match ActiveSessionKey(c, v, session, now)
      case Rejected(reason) => Rejected(reason)
      case Ok(_) => Ok(session)
  }

  function Issue(c: Crypto, v: Vault, a: Authority, leaseId: string, sessionId: string, route: Route,
                 now: int, ttl: int, salt: seq<bv8>): (Authority, Outcome<Session>)
  {
    if !(MINIMUM_SESSION_TTL <= ttl <= MAXIMUM_SESSION_TTL) then (a, Rejected(TtlInvalid))
    else if route !in v.entries then (a, Rejected(CredentialUnknown))
    else if v.entries[route].revoked then (a, Rejected(CredentialRevoked))
    else
      var digest := c.requestFingerprint(leaseId, sessionId, route, now, now + ttl);
      if leaseId in a.records then (a, Recall(c, v, a, leaseId, digest, now))
      else if |salt| != SESSION_SALT_BYTES then (a, Rejected(SaltLengthInvalid))
      else
        var e := v.entries[route];
        var lease := Lease(leaseId, sessionId, route, e.keyId, e.revision, salt, now, now + ttl);
        var contract := Contract(lease, c.authenticate(lease, e.secret));
        match ValidateContract(c, contract, now)
        case Rejected(reason) => (a, Rejected(reason))
        case Ok(_) =>
          var session := Session(lease, contract, SessionKey(e.keyId, route, sessionId, DerivedKey(c, lease, e.secret)));
          (Remember(a, leaseId, digest, session), Ok(session))
  }

  function Accept(c: Crypto, v: Vault, a: Authority, contract: Contract, receivedAt: int): (Authority, Outcome<Session>) {
    var lease := contract.lease;
    match ValidateContract(c, contract, receivedAt)
    case Rejected(reason) => (a, Rejected(reason))
    case Ok(_) =>
      match AuthenticateLease(c, v, lease)
      case Rejected(reason) => (a, Rejected(reason))
      case Ok(expected) =>
        if contract.tag != expected then (a, Rejected(AuthenticationInvalid))
        else
          var digest := c.contractFingerprint(contract);
          if lease.leaseId in a.records then (a, Recall(c, v, a, lease.leaseId, digest, receivedAt))
          else
            match DeriveSessionKey(c, v, lease)
            case Rejected(reason) => (a, Rejected(reason))
            case Ok(key) =>
              var session := Session(lease, contract, key);
              (Remember(a, lease.leaseId, digest, session), Ok(session))
  }

  class LinkSessionAuthority {
    const vault: LinkCredentialVault
    var records: map<string, (string, Session)>
    var order: seq<string>

    ghost function Value(): Authority
      reads this
    {
      Authority(records, order)
    }

    constructor (vault: LinkCredentialVault)
      ensures Value() == NO_RECORDS && this.vault == vault
    {
      this.vault := vault;
      records, order := map[], [];
    }

    method RememberSession(leaseId: string, digest: string, session: Session)
      modifies this
      ensures Value() == Remember(old(Value()), leaseId, digest, session)
    {
      if |order| >= MAXIMUM_LEASE_RECORDS {
        var expired := order[0];
        order := order[1..];
        records := records - {expired};
      }
      order := order + [leaseId];
      records := records[leaseId := (digest, session)];
    }

    method IssueLease(leaseId: string, sessionId: string, route: Route, now: int, ttl: int, salt: seq<bv8>)
      returns (outcome: Outcome<Session>)
      modifies this
      ensures vault.Value() == old(vault.Value())
      ensures (Value(), outcome) ==
              Issue(vault.crypto, old(vault.Value()), old(Value()), leaseId, sessionId, route, now, ttl, salt)
    {
      hide ValidateContract, ActiveSessionKey, Remember;
      var crypto := vault.crypto;
      var store := Store(vault.entries, vault.used);
      if !(MINIMUM_SESSION_TTL <= ttl <= MAXIMUM_SESSION_TTL) {
        return Rejected(TtlInvalid);
      }
      if route !in store.entries {
        return Rejected(CredentialUnknown);
      }
      var entry := store.entries[route];
      if entry.revoked {
        return Rejected(CredentialRevoked);
      }
      var digest := crypto.requestFingerprint(leaseId, sessionId, route, now, now + ttl);
      if leaseId in records {
        var existing := records[leaseId];
        if existing.0 != digest {
          return Rejected(LeaseIdReused);
        }
        var active := ActiveSessionKey(crypto, store, existing.1, now);
        if active.Rejected? {
          return Rejected(active.reason);
        }
        return Ok(existing.1);
      }
      if |salt| != SESSION_SALT_BYTES {
        return Rejected(SaltLengthInvalid);
      }
      var lease := Lease(leaseId, sessionId, route, entry.keyId, entry.revision, salt, now, now + ttl);
      var tag := AuthenticateLease(crypto, store, lease);
      var contract := Contract(lease, tag.value);
      var validated := ValidateContract(crypto, contract, now);
      if validated.Rejected? {
        return Rejected(validated.reason);
      }
      var key := DeriveSessionKey(crypto, store, lease);
      var session := Session(lease, contract, key.value);
      RememberSession(leaseId, digest, session);
      return Ok(session);
    }

    method AcceptLease(contract: Contract, receivedAt: int) returns (outcome: Outcome<Session>)
      modifies this
      ensures vault.Value() == old(vault.Value())
      ensures (Value(), outcome) == Accept(vault.crypto, old(vault.Value()), old(Value()), contract, receivedAt)
    {
      hide ValidateContract, ActiveSessionKey, Remember, AuthenticateLease, DeriveSessionKey;
      var crypto := vault.crypto;
      var store := Store(vault.entries, vault.used);
      var validated := ValidateContract(crypto, contract, receivedAt);
      if validated.Rejected? {
        return Rejected(validated.reason);
      }
      var lease := contract.lease;
      var expected := AuthenticateLease(crypto, store, lease);
      if expected.Rejected? {
        return Rejected(expected.reason);
      }
      if contract.tag != expected.value {
        return Rejected(AuthenticationInvalid);
      }
      var digest := crypto.contractFingerprint(contract);
      if lease.leaseId in records {
        var existing := records[lease.leaseId];
        if existing.0 != digest {
          return Rejected(LeaseIdReused);
        }
        var active := ActiveSessionKey(crypto, store, existing.1, receivedAt);
        if active.Rejected? {
          return Rejected(active.reason);
        }
        return Ok(existing.1);
      }
      var key := DeriveSessionKey(crypto, store, lease);
      if key.Rejected? {
        return Rejected(key.reason);
      }
      var session := Session(lease, contract, key.value);
      RememberSession(lease.leaseId, digest, session);
      return Ok(session);
    }
  }

  // ---- One handshake ---------------------------------------------------------------------------

  /** A lease issued on one side is accepted on the other side, on any clock within the lease and
      the allowed skew, and both sides hold the same session key, as long as they hold the same
      unrevoked credential. */
  lemma IssuedLeaseIsAccepted(c: Crypto, issuer: Vault, a: Authority, acceptor: Vault, b: Authority,
                              leaseId: string, sessionId: string, route: Route, now: int, ttl: int,
                              salt: seq<bv8>, receivedAt: int)
    requires leaseId !in a.records && leaseId !in b.records
    requires Issue(c, issuer, a, leaseId, sessionId, route, now, ttl, salt).1.Ok?
    requires route in acceptor.entries && !acceptor.entries[route].revoked
    requires acceptor.entries[route].keyId == issuer.entries[route].keyId
    requires acceptor.entries[route].secret == issuer.entries[route].secret
    requires acceptor.entries[route].revision == issuer.entries[route].revision
    ensures var session := Issue(c, issuer, a, leaseId, sessionId, route, now, ttl, salt).1.value;
            var accepted := Accept(c, acceptor, b, session.contract, receivedAt).1;
            && (accepted.Ok? <==> now - MAXIMUM_SESSION_CLOCK_SKEW <= receivedAt < now + ttl)
            && (accepted.Ok? ==> accepted.value == session)
  {
    hide Remember;
  }

  /** Acceptance proves possession: whatever is accepted carries the right tag under the current,
      unrevoked secret of its route, at the current revision. */
  lemma AcceptedLeaseIsAuthentic(c: Crypto, v: Vault, a: Authority, contract: Contract, receivedAt: int)
    requires Accept(c, v, a, contract, receivedAt).1.Ok?
    ensures var lease := contract.lease;
            && lease.route in v.entries && !v.entries[lease.route].revoked
            && lease.keyId == v.entries[lease.route].keyId && lease.revision == v.entries[lease.route].revision
            && contract.tag == c.authenticate(lease, v.entries[lease.route].secret)
            && receivedAt < lease.expiresAt
  {
    hide Remember;
  }

  /** When an authority accepts a lease it issued itself: `issue` and `accept` share one table of
      records but fingerprint what they remember differently, so the record of the issue stands in
      the way as long as it is there. In time and with an unchanged credential, the lease is accepted
      exactly when nothing is remembered under its id, or an equal contract still active. */
  lemma OwnLeaseAcceptedIff(c: Crypto, v: Vault, a: Authority, leaseId: string, sessionId: string, route: Route,
                            now: int, ttl: int, salt: seq<bv8>, laterVault: Vault, later: Authority, receivedAt: int)
    requires leaseId !in a.records && Issue(c, v, a, leaseId, sessionId, route, now, ttl, salt).1.Ok?
    requires now - MAXIMUM_SESSION_CLOCK_SKEW <= receivedAt < now + ttl
    requires route in v.entries && route in laterVault.entries && laterVault.entries[route] == v.entries[route]
    ensures var session := Issue(c, v, a, leaseId, sessionId, route, now, ttl, salt).1.value;
            var (after, accepted) := Accept(c, laterVault, later, session.contract, receivedAt);
            && (accepted.Ok? <==>
                  || leaseId !in later.records
                  || (later.records[leaseId].0 == c.contractFingerprint(session.contract)
                      && ActiveSessionKey(c, laterVault, later.records[leaseId].1, receivedAt).Ok?))
            && (leaseId !in later.records ==> accepted == Ok(session))
            && (leaseId in later.records && later.records[leaseId].0 != c.contractFingerprint(session.contract) ==>
                  after == later && accepted == Rejected(LeaseIdReused))
  {
    hide Remember;
  }
}
