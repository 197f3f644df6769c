/** Exactly when leases are issued and accepted, and which key every session holds, over any run. */
module LinkAcceptance {
  import opened Sequences
  import opened KeyStore
  import opened LinkSessions
  import opened LinkHistory

  // ---- The credentials -------------------------------------------------------------------------

  /** A credential is provisioned exactly for a new, valid route, under a valid key id and with a fresh
      secret of at least 32 bytes. */
  lemma ProvisionedExactlyWhen(c: Crypto, v: Vault, route: Route, keyId: string, secret: Secret)
    ensures var (after, outcome) := Provision(c, v, route, keyId, secret);
            && (outcome.Ok? <==>
                  && route !in v.entries && c.routeValid(route) && c.keyIdValid(keyId)
                  && |secret| >= 32 && c.fingerprint(secret) !in v.used)
            && (outcome.Ok? ==>
                  && outcome.value == Status(route, keyId, 1, false)
                  && after.entries == v.entries[route := Entry(keyId, secret, 1, false, {})]
                  && after.used == v.used + {c.fingerprint(secret)})
            && (outcome.Rejected? ==> after == v)
  {}

  predicate RepeatsRotation(e: Entry, expectedKeyId: string, newKeyId: string, newSecret: Secret) {
    e.keyId == newKeyId && e.secret == newSecret && newKeyId != expectedKeyId
  }

  predicate MayRotate(e: Entry, expectedKeyId: string, newKeyId: string, newSecret: Secret) {
    && e.keyId == expectedKeyId && newKeyId != expectedKeyId && newKeyId !in e.retired
    && |e.retired| < 64 && newSecret != e.secret
  }

  /** A rotation is answered exactly when it repeats the last one or replaces the current key by a new one
      with a fresh secret; then the old key is retired and the new secret is the current one. */
  lemma RotatedExactlyWhen(c: Crypto, v: Vault, route: Route, expectedKeyId: string, newKeyId: string, newSecret: Secret)
    ensures var (after, outcome) := Rotate(c, v, route, expectedKeyId, newKeyId, newSecret);
            && (outcome.Ok? <==>
                  && c.keyIdValid(newKeyId) && |newSecret| >= 32 && route in v.entries && !v.entries[route].revoked
                  && var e := v.entries[route];
                     || RepeatsRotation(e, expectedKeyId, newKeyId, newSecret)
                     || (MayRotate(e, expectedKeyId, newKeyId, newSecret) && c.fingerprint(newSecret) !in v.used))
            && (outcome.Ok? ==>
                  var e := v.entries[route];
                  if RepeatsRotation(e, expectedKeyId, newKeyId, newSecret)
                  then after == v && outcome.value == Status(route, newKeyId, e.revision, false)
                  else
                    && outcome.value == Status(route, newKeyId, e.revision + 1, false)
                    && after.entries == v.entries[route := Entry(newKeyId, newSecret, e.revision + 1, false, e.retired + {e.keyId})]
                    && after.used == v.used + {c.fingerprint(newSecret)})
            && (outcome.Rejected? ==> after == v)
  {}

  /** A credential is revoked exactly when it is known and its key is the expected one. */
  lemma RevokedExactlyWhen(v: Vault, route: Route, expectedKeyId: string)
    ensures var (after, outcome) := Revoke(v, route, expectedKeyId);
            && (outcome.Ok? <==> route in v.entries && v.entries[route].keyId == expectedKeyId)
            && (outcome.Ok? ==>
                  var e := v.entries[route];
                  && after.used == v.used
                  && after.entries
                     == v.entries[route := if e.revoked then e else Entry(e.keyId, e.secret, e.revision + 1, true, e.retired)]
                  && outcome.value == Status(route, e.keyId, after.entries[route].revision, true))
            && (outcome.Rejected? ==> after == v)
  {
    if route in v.entries {
      assert v.entries == v.entries[route := v.entries[route]];
    }
  }

  // ---- Which leases ----------------------------------------------------------------------------

  /** The lease is for the current, unrevoked credential of its route. */
  predicate Current(v: Vault, lease: Lease) {
    && lease.route in v.entries && !v.entries[lease.route].revoked
    && lease.keyId == v.entries[lease.route].keyId && lease.revision == v.entries[lease.route].revision
  }

  /** What is remembered under the lease id answers to this digest, with a session that is running under the
      current credential. */
  predicate RecalledBy(v: Vault, a: Authority, leaseId: string, digest: string, now: int) {
    && leaseId in a.records && a.records[leaseId].0 == digest
    && var lease := a.records[leaseId].1.lease;
       lease.issuedAt <= now < lease.expiresAt && Current(v, lease)
  }

  /** The lease a new request gets, for the current credential of its route. */
  function RequestedLease(v: Vault, op: Operation): Lease
    requires op.IssueOp? && op.route in v.entries
  {
    var e := v.entries[op.route];
    Lease(op.leaseId, op.sessionId, op.route, e.keyId, e.revision, op.salt, op.now, op.now + op.ttl)
  }

  function IssueOutcome(c: Crypto, w: World, op: Operation): Outcome<Session>
    requires op.IssueOp?
  {
    Issue(c, w.vault, w.authority, op.leaseId, op.sessionId, op.route, op.now, op.ttl, op.salt).1
  }

  /** A request is served exactly when it asks for 10 to 120 seconds on a live credential and either repeats
      a remembered one whose session still runs, or comes under an id that is not remembered. */
  lemma IssuedExactlyWhen(c: Crypto, w: World, op: Operation)
    requires op.IssueOp?
    ensures var digest := c.requestFingerprint(op.leaseId, op.sessionId, op.route, op.now, op.now + op.ttl);
            && (IssueOutcome(c, w, op).Ok? <==>
                  && 10_000_000 <= op.ttl <= 120_000_000
                  && op.route in w.vault.entries && !w.vault.entries[op.route].revoked
                  && if op.leaseId in w.authority.records then RecalledBy(w.vault, w.authority, op.leaseId, digest, op.now)
                     else
                       var lease := RequestedLease(w.vault, op);
                       |op.salt| == 32 && c.schemaValid(Contract(lease, c.authenticate(lease, w.vault.entries[op.route].secret))))
            && (IssueOutcome(c, w, op).Ok? ==>
                  if op.leaseId in w.authority.records
                  then IssueOutcome(c, w, op).value == w.authority.records[op.leaseId].1
                  else IssueOutcome(c, w, op).value.lease == RequestedLease(w.vault, op))
  {
    hide Remember;
  }

  /** A contract is accepted exactly when it is well formed and in time, carries the right tag for the current
      credential of its route, and either repeats a remembered one whose session still runs, or comes under
      an id that is not remembered. */
  lemma AcceptedExactlyWhen(c: Crypto, w: World, contract: Contract, receivedAt: int)
    ensures var outcome, lease := Accept(c, w.vault, w.authority, contract, receivedAt).1, contract.lease;
            && (outcome.Ok? <==>
                  && c.schemaValid(contract) && |lease.salt| == 32
                  && lease.issuedAt + 10_000_000 <= lease.expiresAt <= lease.issuedAt + 120_000_000
                  && lease.issuedAt - 30_000_000 <= receivedAt < lease.expiresAt
                  && Current(w.vault, lease)
                  && contract.tag == c.authenticate(lease, w.vault.entries[lease.route].secret)
                  && (lease.leaseId in w.authority.records ==>
                        RecalledBy(w.vault, w.authority, lease.leaseId, c.contractFingerprint(contract), receivedAt)))
            && (outcome.Ok? ==>
                  if lease.leaseId in w.authority.records then outcome.value == w.authority.records[lease.leaseId].1
                  else outcome.value.lease == lease && outcome.value.contract == contract)
  {
    hide Remember;
  }

  // ---- Session keys ----------------------------------------------------------------------------

  /** The session was handed out by the call `op` after the run `ops`. */
  predicate HandedOut(c: Crypto, ops: seq<Operation>, op: Operation, session: Session) {
    var w := Run(c, START, ops);
    || (op.IssueOp? && IssueOutcome(c, w, op) == Ok(session))
    || (op.AcceptOp? && Accept(c, w.vault, w.authority, op.contract, op.receivedAt).1 == Ok(session))
  }

  /** Every session that is ever handed out is for the current credential of its route. Its key is the HKDF
      value of the route's current secret under the lease's salt and identity, and its contract carries the tag. */
  lemma SessionKeyIs(c: Crypto, ops: seq<Operation>, op: Operation, session: Session)
    requires HandedOut(c, ops, op, session)
    ensures var v, lease := Run(c, START, ops).vault, session.lease;
            && Current(v, lease)
            && var secret := v.entries[lease.route].secret;
               && session.key == SessionKey(lease.keyId, lease.route, lease.sessionId,
                    c.hkdf(lease.salt, KeyInfo(lease.route, lease.revision, lease.keyId, lease.leaseId, lease.sessionId), secret))
               && session.contract == Contract(lease, c.authenticate(lease, secret))
  {
    hide Run, Issue, Accept, Good;
    HandedOutSessions(c, ops, op, session);
  }

  /** A session yields its key exactly while it runs and its credential is current. */
  lemma KeyYieldedExactlyWhen(c: Crypto, v: Vault, session: Session, now: int)
    ensures var outcome, lease := ActiveSessionKey(c, v, session, now), session.lease;
            && (outcome.Ok? <==> lease.issuedAt <= now < lease.expiresAt && Current(v, lease))
            && (outcome.Ok? ==> outcome.value.key == c.hkdf(
                  lease.salt, KeyInfo(lease.route, lease.revision, lease.keyId, lease.leaseId, lease.sessionId),
                  v.entries[lease.route].secret))
  {}

  /** HKDF tells salts, identities and secrets apart. */
  ghost predicate HkdfSeparates(c: Crypto) {
    forall salt, info, secret, salt', info', secret' :: c.hkdf(salt, info, secret) == c.hkdf(salt', info', secret')
      ==> salt == salt' && info == info' && secret == secret'
  }

  /** Then sessions hold equal keys exactly when they agree in salt, lease id, session id, route, key and
      revision, and were handed out under the same secret. */
  lemma EqualKeysExactlyWhen(
    c: Crypto, ops: seq<Operation>, op: Operation, s: Session, ops': seq<Operation>, op': Operation, s': Session)
    requires HkdfSeparates(c) && HandedOut(c, ops, op, s) && HandedOut(c, ops', op', s')
    ensures var v, v' := Run(c, START, ops).vault, Run(c, START, ops').vault;
            && s.lease.route in v.entries && s'.lease.route in v'.entries
            && (s.key.key == s'.key.key <==>
                  && s.lease.(issuedAt := 0, expiresAt := 0) == s'.lease.(issuedAt := 0, expiresAt := 0)
                  && v.entries[s.lease.route].secret == v'.entries[s'.lease.route].secret)
  {
    hide Run, HandedOut;
    SessionKeyIs(c, ops, op, s);
    SessionKeyIs(c, ops', op', s');
  }

  /** So a successful rotation or revocation separates: a session of its route from before holds another key
      than any session of that route from afterwards. */
  lemma ChangedCredentialChangesKeys(
    c: Crypto, ops: seq<Operation>, op: Operation, s: Session, change: Operation, between: seq<Operation>,
    later: seq<Operation>, op': Operation, s': Session)
    requires HkdfSeparates(c) && HandedOut(c, ops, op, s)
    requires var w := Run(c, Run(c, START, ops), between); CredentialChanged(c, w, change, s.lease.route)
    requires Run(c, START, later) == Step(c, Run(c, Run(c, START, ops), between), change)
    requires HandedOut(c, later, op', s') && s'.lease.route == s.lease.route
    ensures s'.lease.revision > s.lease.revision && s'.key.key != s.key.key
  {
    hide Run, HandedOut, Step, HkdfSeparates, Good;
    var w := Run(c, START, ops);
    var before := Run(c, w, between);
    StartGood(c);
    RunGood(c, START, ops);
    RunGood(c, w, between);
    SessionKeyIs(c, ops, op, s);
    SessionKeyIs(c, later, op', s');
    EqualKeysExactlyWhen(c, ops, op, s, later, op', s');
    assert Succeeds(w.vault.entries[s.lease.route], before.vault.entries[s.lease.route]);
    ChangeRaisesRevision(c, before, change, s.lease.route);
  }

  lemma ChangeRaisesRevision(c: Crypto, w: World, op: Operation, route: Route)
    requires CredentialChanged(c, w, op, route)
    ensures route in w.vault.entries && route in Step(c, w, op).vault.entries
    ensures Step(c, w, op).vault.entries[route].revision > w.vault.entries[route].revision
  {}

  // ---- What is remembered ----------------------------------------------------------------------

  datatype Record = Record(leaseId: string, digest: string, session: Session)

  /** The session a call newly remembers, if it does. */
  function NewRecord(c: Crypto, w: World, op: Operation): seq<Record> {
    match op
    case IssueOp(leaseId, sessionId, route, now, ttl, salt) =>
      var outcome := IssueOutcome(c, w, op);
      if outcome.Ok? && leaseId !in w.authority.records
      then [Record(leaseId, c.requestFingerprint(leaseId, sessionId, route, now, now + ttl), outcome.value)] else []
    case AcceptOp(contract, receivedAt) =>
      var outcome := Accept(c, w.vault, w.authority, contract, receivedAt).1;
      if outcome.Ok? && contract.lease.leaseId !in w.authority.records
      then [Record(contract.lease.leaseId, c.contractFingerprint(contract), outcome.value)] else []
    case _ => []
  }

  /** All sessions newly handed out during a run, in order. */
  function Records(c: Crypto, ops: seq<Operation>): seq<Record> {
    if ops == [] then []
    else
      var front := ops[..|ops| - 1];
      Records(c, front) + NewRecord(c, Run(c, START, front), ops[|ops| - 1])
  }

  function LeaseIds(records: seq<Record>): (ids: seq<string>)
    ensures |ids| == |records| && forall i :: 0 <= i < |ids| ==> ids[i] == records[i].leaseId
  {
    seq(|records|, i requires 0 <= i < |records| => records[i].leaseId)
  }

  ghost predicate RemembersLatest(a: Authority, records: seq<Record>) {
    && a.order == LeaseIds(Latest(records, 1_024))
    && forall i :: 0 <= i < |records| && |records| - 1_024 <= i ==>
         records[i].leaseId in a.records && a.records[records[i].leaseId] == (records[i].digest, records[i].session)
  }

  lemma StepRecords(c: Crypto, w: World, op: Operation)
    ensures var added := NewRecord(c, w, op);
            && |added| <= 1
            && (added == [] ==> Step(c, w, op).authority == w.authority)
            && (added != [] ==>
                  && added[0].leaseId !in w.authority.records
                  && Step(c, w, op).authority == Remember(w.authority, added[0].leaseId, added[0].digest, added[0].session))
  {
    hide Remember, ValidateContract, Provision, Rotate, Revoke, Recall, DeriveSessionKey, AuthenticateLease;
  }

  lemma RememberLatest(a: Authority, records: seq<Record>, r: Record)
    requires RecordsBounded(a) && RemembersLatest(a, records) && r.leaseId !in a.records
    ensures RemembersLatest(Remember(a, r.leaseId, r.digest, r.session), records + [r])
  {
    hide Remember, LeaseIds, Latest;
    var after, all := Remember(a, r.leaseId, r.digest, r.session), records + [r];
    OrderAfter(a, records, r);
    forall i | 0 <= i < |all| && |all| - 1_024 <= i
      ensures all[i].leaseId in after.records && after.records[all[i].leaseId] == (all[i].digest, all[i].session)
    {
      if i < |records| {
        KeptAfter(a, records, r, i);
      } else {
        NewAfter(a, r);
      }
    }
  }

  lemma OrderAfter(a: Authority, records: seq<Record>, r: Record)
    requires a.order == LeaseIds(Latest(records, 1_024))
    ensures Remember(a, r.leaseId, r.digest, r.session).order == LeaseIds(Latest(records + [r], 1_024))
  {
    LatestAppend(records, r, 1_024);
    hide Latest;
  }

  lemma NewAfter(a: Authority, r: Record)
    ensures var after := Remember(a, r.leaseId, r.digest, r.session);
            r.leaseId in after.records && after.records[r.leaseId] == (r.digest, r.session)
  {}

  lemma KeptAfter(a: Authority, records: seq<Record>, r: Record, i: nat)
    requires RecordsBounded(a) && a.order == LeaseIds(Latest(records, 1_024)) && r.leaseId !in a.records
    requires i < |records| && |records| + 1 - 1_024 <= i && records[i].leaseId in a.records
    ensures var after := Remember(a, r.leaseId, r.digest, r.session);
            records[i].leaseId in after.records && after.records[records[i].leaseId] == a.records[records[i].leaseId]
  {
    var latest := Latest(records, 1_024);
    var j := i - (|records| - |latest|);
    assert latest[j] == records[i] && a.order[j] == records[i].leaseId;
  }

  /** The authority remembers exactly the latest 1024 sessions that were newly handed out, in order, each with
      the digest of the request or contract it was handed out for. */
  lemma {:induction false} RecordsAreLatest(c: Crypto, ops: seq<Operation>)
    ensures RecordsBounded(Run(c, START, ops).authority)
    ensures RemembersLatest(Run(c, START, ops).authority, Records(c, ops))
  {
    hide Step, NewRecord, RecordsBounded, RemembersLatest, Remember, Accounts, RecordsSound, Evolves;
    StartGood(c);
    RunGood(c, START, ops);
    if ops == [] {
      NothingRemembered(c);
    } else {
      var front, op := ops[..|ops| - 1], ops[|ops| - 1];
      var before := Run(c, START, front);
      RecordsAreLatest(c, front);
      StepRecords(c, before, op);
      var added := NewRecord(c, before, op);
      if added != [] {
        RememberLatest(before.authority, Records(c, front), added[0]);
        assert added == [added[0]];
      } else {
        assert Records(c, front) + added == Records(c, front);
      }
    }
  }

  lemma NothingRemembered(c: Crypto)
    ensures RemembersLatest(START.authority, [])
  {}

  // ---- Refusals --------------------------------------------------------------------------------

  /** A refused request tells what was wrong. */
  lemma IssueRefusalsTell(c: Crypto, w: World, op: Operation)
    requires op.IssueOp?
    ensures var outcome := IssueOutcome(c, w, op);
            outcome.Rejected? ==>
              match outcome.reason
              case TtlInvalid => !(10_000_000 <= op.ttl <= 120_000_000)
              case CredentialUnknown => op.route !in w.vault.entries || op.leaseId in w.authority.records
              case CredentialRevoked =>
                (op.route in w.vault.entries && w.vault.entries[op.route].revoked) || op.leaseId in w.authority.records
              case LeaseIdReused =>
                && op.leaseId in w.authority.records
                && w.authority.records[op.leaseId].0
                   != c.requestFingerprint(op.leaseId, op.sessionId, op.route, op.now, op.now + op.ttl)
              case SessionExpired =>
                && op.leaseId in w.authority.records
                && var lease := w.authority.records[op.leaseId].1.lease; !(lease.issuedAt <= op.now < lease.expiresAt)
              case IdentityStale => op.leaseId in w.authority.records && !Current(w.vault, w.authority.records[op.leaseId].1.lease)
              case SaltLengthInvalid => |op.salt| != 32
              case SchemaInvalid => op.leaseId !in w.authority.records
              case _ => false
  {
    hide Remember;
  }

  /** A refused contract tells what was wrong. */
  lemma AcceptRefusalsTell(c: Crypto, w: World, contract: Contract, receivedAt: int)
    ensures var outcome, lease := Accept(c, w.vault, w.authority, contract, receivedAt).1, contract.lease;
            outcome.Rejected? ==>
              match outcome.reason
              case SchemaInvalid => !c.schemaValid(contract)
              case TimeInvalid =>
                !(lease.issuedAt + 10_000_000 <= lease.expiresAt <= lease.issuedAt + 120_000_000
                  && lease.issuedAt - 30_000_000 <= receivedAt < lease.expiresAt)
              case SaltLengthInvalid => |lease.salt| != 32
              case AuthenticationInvalid =>
                lease.route in w.vault.entries && contract.tag != c.authenticate(lease, w.vault.entries[lease.route].secret)
              case LeaseIdReused =>
                lease.leaseId in w.authority.records && w.authority.records[lease.leaseId].0 != c.contractFingerprint(contract)
              case SessionExpired => lease.leaseId in w.authority.records
              case CredentialUnknown => !Current(w.vault, lease) || lease.leaseId in w.authority.records
              case CredentialRevoked => !Current(w.vault, lease) || lease.leaseId in w.authority.records
              case IdentityStale => !Current(w.vault, lease) || lease.leaseId in w.authority.records
              case _ => false
  {
    hide Remember;
  }
}
