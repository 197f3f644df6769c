/**
 Whole runs of the credential vault and the session authority: which sessions still yield a key,
 and what the bounded lease records hold.
 */
module LinkHistory {
  import opened KeyStore
  import opened LinkSessions

  datatype Operation =
    | ProvisionOp(route: Route, keyId: string, secret: Secret)
    | RotateOp(route: Route, expectedKeyId: string, newKeyId: string, newSecret: Secret)
    | RevokeOp(route: Route, expectedKeyId: string)
    | IssueOp(leaseId: string, sessionId: string, route: Route, now: int, ttl: int, salt: seq<bv8>)
    | AcceptOp(contract: Contract, receivedAt: int)

  datatype World = World(vault: Vault, authority: Authority)

  const START := World(Store(map[], {}), NO_RECORDS)

  function Step(c: Crypto, w: World, op: Operation): World {
    match op
    case ProvisionOp(route, keyId, secret) => w.(vault := Provision(c, w.vault, route, keyId, secret).0)
    case RotateOp(route, expected, keyId, secret) => w.(vault := Rotate(c, w.vault, route, expected, keyId, secret).0)
    case RevokeOp(route, expected) => w.(vault := Revoke(w.vault, route, expected).0)
    case IssueOp(leaseId, sessionId, route, now, ttl, salt) =>
      w.(authority := Issue(c, w.vault, w.authority, leaseId, sessionId, route, now, ttl, salt).0)
    case AcceptOp(contract, receivedAt) => w.(authority := Accept(c, w.vault, w.authority, contract, receivedAt).0)
  }

  function Run(c: Crypto, w: World, ops: seq<Operation>): World {
    if ops == [] then w else Step(c, Run(c, w, ops[..|ops| - 1]), ops[|ops| - 1])
  }

  // ---- What every step keeps -------------------------------------------------------------------

  /** The session holds the key that its lease yields now, and a contract with the right tag. */
  ghost predicate IsCurrent(c: Crypto, v: Vault, session: Session) {
    && DeriveSessionKey(c, v, session.lease) == Ok(session.key)
    && session.contract.lease == session.lease && AuthenticateLease(c, v, session.lease) == Ok(session.contract.tag)
  }

  /** A remembered session was derived from its route's entry at its revision; it is current exactly
      while the entry has that revision. */
  ghost predicate SessionSound(c: Crypto, v: Vault, session: Session) {
    var lease := session.lease;
    && lease.route in v.entries
    && lease.revision <= v.entries[lease.route].revision
    && (lease.revision == v.entries[lease.route].revision ==> IsCurrent(c, v, session))
  }

  ghost predicate RecordsSound(c: Crypto, w: World) {
    forall id :: id in w.authority.records ==>
      w.authority.records[id].1.lease.leaseId == id && SessionSound(c, w.vault, w.authority.records[id].1)
  }

  ghost predicate RecordsBounded(a: Authority) {
    && (forall i, j :: 0 <= i < j < |a.order| ==> a.order[i] != a.order[j])
    && |a.order| <= MAXIMUM_LEASE_RECORDS
    && (forall id :: id in a.records <==> id in a.order)
  }

  ghost predicate Good(c: Crypto, w: World) {
    Accounts(w.vault, c.fingerprint) && RecordsBounded(w.authority) && RecordsSound(c, w)
  }

  lemma StepChanges(c: Crypto, w: World, op: Operation)
    ensures Changes(w.vault, Step(c, w, op).vault, c.fingerprint)
  {
    hide Issue, Accept, StatusOf, Provisioned, Rotated, Revoked;
    var s := w.vault;
    match op
    case ProvisionOp(route, keyId, secret) =>
      assert Step(c, w, op).vault != s ==> ProvisionAllowed(s, route, secret, c.fingerprint);
    case RotateOp(route, expected, keyId, secret) =>
      assert Step(c, w, op).vault != s ==> RotationAllowed(s, route, keyId, secret, c.fingerprint);
    case RevokeOp(route, expected) =>
      assert Step(c, w, op).vault != s ==> RevocationAllowed(s, route);
    case _ =>
  }

  lemma RememberBounded(a: Authority, leaseId: string, digest: string, session: Session)
    requires RecordsBounded(a) && leaseId !in a.records
    ensures RecordsBounded(Remember(a, leaseId, digest, session))
  {
    var after := Remember(a, leaseId, digest, session);
    var kept := if |a.order| >= MAXIMUM_LEASE_RECORDS then a.order[1..] else a.order;
    assert after.order == kept + [leaseId];
    if |a.order| >= MAXIMUM_LEASE_RECORDS {
      assert a.order == [a.order[0]] + kept;
    }
  }

  /** A session handed out, freshly derived or remembered, is the current key of its route. */
  lemma HandedOutIsCurrent(c: Crypto, w: World, op: Operation)
    requires RecordsSound(c, w)
    ensures op.IssueOp? ==>
              var outcome := Issue(c, w.vault, w.authority, op.leaseId, op.sessionId, op.route, op.now, op.ttl, op.salt).1;
              outcome.Ok? ==> IsCurrent(c, w.vault, outcome.value)
                              && outcome.value.lease.leaseId == op.leaseId
    ensures op.AcceptOp? ==>
              var outcome := Accept(c, w.vault, w.authority, op.contract, op.receivedAt).1;
              outcome.Ok? ==> IsCurrent(c, w.vault, outcome.value)
                              && outcome.value.lease.leaseId == op.contract.lease.leaseId
  {
    hide Remember, ValidateContract;
  }

  /** The only change to the records: one handed-out session under a new id. */
  lemma AuthorityStep(c: Crypto, w: World, op: Operation)
    requires RecordsSound(c, w)
    ensures var after := Step(c, w, op);
            && (op.IssueOp? || op.AcceptOp? ==> after.vault == w.vault)
            && (after.authority == w.authority ||
                exists digest: string, session: Session :: after.authority == Remember(w.authority, session.lease.leaseId, digest, session)
                  && session.lease.leaseId !in w.authority.records
                  && IsCurrent(c, w.vault, session))
  {
    hide Remember, ValidateContract, DeriveSessionKey, IsCurrent, Provision, Rotate, Revoke;
    HandedOutIsCurrent(c, w, op);
  }

  lemma SoundWhenCurrent(c: Crypto, v: Vault, session: Session)
    requires IsCurrent(c, v, session)
    ensures SessionSound(c, v, session)
  {}

  lemma SoundnessEvolves(c: Crypto, v: Vault, u: Vault, session: Session)
    requires Evolves(v, u) && SessionSound(c, v, session)
    ensures SessionSound(c, u, session)
  {
    assert Succeeds(v.entries[session.lease.route], u.entries[session.lease.route]);
  }

  lemma StepGood(c: Crypto, w: World, op: Operation)
    requires Good(c, w)
    ensures Good(c, Step(c, w, op)) && Evolves(w.vault, Step(c, w, op).vault)
  {
    hide Accounts, Evolves, SessionSound, Step, RecordsBounded, DeriveSessionKey, IsCurrent;
    var after := Step(c, w, op);
    StepChanges(c, w, op);
    ChangeAccounts(w.vault, after.vault, c.fingerprint);
    ChangeEvolves(w.vault, after.vault, c.fingerprint);
    AuthorityStep(c, w, op);
    if after.authority != w.authority {
      var digest: string, session: Session :| after.authority == Remember(w.authority, session.lease.leaseId, digest, session)
        && session.lease.leaseId !in w.authority.records
        && IsCurrent(c, w.vault, session);
      RememberBounded(w.authority, session.lease.leaseId, digest, session);
      SoundWhenCurrent(c, w.vault, session);
    }
    forall id | id in after.authority.records
      ensures after.authority.records[id].1.lease.leaseId == id && SessionSound(c, after.vault, after.authority.records[id].1)
    {
      SoundnessEvolves(c, w.vault, after.vault, after.authority.records[id].1);
    }
  }

  lemma EvolvesReflexive(s: Vault)
    ensures Evolves(s, s)
  {}

  lemma {:induction false} RunGood(c: Crypto, w: World, ops: seq<Operation>)
    requires Good(c, w)
    ensures Good(c, Run(c, w, ops)) && Evolves(w.vault, Run(c, w, ops).vault)
  {
    hide Accounts, RecordsBounded, RecordsSound, Evolves, Step;
    if ops == [] {
      EvolvesReflexive(w.vault);
    } else {
      var before := Run(c, w, ops[..|ops| - 1]);
      RunGood(c, w, ops[..|ops| - 1]);
      StepGood(c, before, ops[|ops| - 1]);
      EvolvesTransitive(w.vault, before.vault, Run(c, w, ops).vault, c.fingerprint);
    }
  }

  lemma StartGood(c: Crypto)
    ensures Good(c, START)
  {}

  // ---- Results ---------------------------------------------------------------------------------

  /** A lease that yields a key now yields one after any run if and only if the credential of its
      route is still exactly what it was, and then it is the same key. */
  lemma KeyYieldedIffUnchanged(c: Crypto, w: World, ops: seq<Operation>, lease: Lease)
    requires Good(c, w) && DeriveSessionKey(c, w.vault, lease).Ok?
    ensures var after := Run(c, w, ops).vault;
            && lease.route in after.entries
            && (DeriveSessionKey(c, after, lease).Ok? <==> after.entries[lease.route] == w.vault.entries[lease.route])
            && (DeriveSessionKey(c, after, lease).Ok? ==> DeriveSessionKey(c, after, lease) == DeriveSessionKey(c, w.vault, lease))
  {
    hide Good, Run;
    RunGood(c, w, ops);
    assert Succeeds(w.vault.entries[lease.route], Run(c, w, ops).vault.entries[lease.route]);
  }

  /** A successful rotation or revocation is one that changes the credential. */
  predicate CredentialChanged(c: Crypto, w: World, op: Operation, route: Route) {
    && (op.RotateOp? || op.RevokeOp?) && op.route == route
    && Step(c, w, op).vault != w.vault
  }

  /** No session from before a successful rotation or revocation of its route ever yields a key
      again, whatever happens afterwards. */
  lemma ChangedCredentialKillsSessions(c: Crypto, w: World, op: Operation, ops: seq<Operation>, session: Session, now: int)
    requires Good(c, w) && CredentialChanged(c, w, op, session.lease.route)
    requires session.lease.route in w.vault.entries
             ==> session.lease.revision <= w.vault.entries[session.lease.route].revision
    ensures var later := Run(c, Step(c, w, op), ops).vault;
            DeriveSessionKey(c, later, session.lease).Rejected? && ActiveSessionKey(c, later, session, now).Rejected?
  {
    hide Good, Run;
    var after := Step(c, w, op);
    StepGood(c, w, op);
    RunGood(c, after, ops);
    assert after.vault.entries[session.lease.route].revision > w.vault.entries[session.lease.route].revision;
    assert Succeeds(after.vault.entries[session.lease.route], Run(c, after, ops).vault.entries[session.lease.route]);
  }

  /** Every session ever handed out is covered by the previous lemma: its revision is not ahead of
      its credential, and at that moment it holds the current key. */
  lemma HandedOutSessions(c: Crypto, ops: seq<Operation>, op: Operation, session: Session)
    requires var w := Run(c, START, ops);
             || (op.IssueOp? && Issue(c, w.vault, w.authority, op.leaseId, op.sessionId, op.route, op.now, op.ttl, op.salt).1 == Ok(session))
             || (op.AcceptOp? && Accept(c, w.vault, w.authority, op.contract, op.receivedAt).1 == Ok(session))
    ensures var w := Run(c, START, ops);
            && Good(c, w)
            && IsCurrent(c, w.vault, session)
            && session.lease.route in w.vault.entries
            && session.lease.revision <= w.vault.entries[session.lease.route].revision
  {
    hide Run, Issue, Accept, Accounts, RecordsBounded, Evolves;
    StartGood(c);
    RunGood(c, START, ops);
    HandedOutIsCurrent(c, Run(c, START, ops), op);
  }

  /** Credential accounting over every run, and the bounded records. */
  lemma VaultAccounts(c: Crypto, ops: seq<Operation>, route: Route)
    requires route in Run(c, START, ops).vault.entries
    ensures var w := Run(c, START, ops);
            var e := w.vault.entries[route];
            && e.revision == 1 + |e.retired| + (if e.revoked then 1 else 0)
            && e.keyId !in e.retired && |e.retired| <= MAXIMUM_RETIRED_KEYS
            && |w.vault.used| == TotalKeys(w.vault.entries)
            && RecordsBounded(w.authority)
  {
    hide RecordsSound, RecordsBounded, Evolves, Run, TotalKeys;
    StartGood(c);
    RunGood(c, START, ops);
    assert EntryAccounts(Run(c, START, ops).vault.entries[route]);
  }

  // ---- An authority's own leases ---------------------------------------------------------------

  function LeaseIdOf(op: Operation): string {
    match op
    case IssueOp(leaseId, _, _, _, _, _) => leaseId
    case AcceptOp(contract, _) => contract.lease.leaseId
    case _ => ""
  }

  /** The lease ids newly remembered during a run, in order. */
  function NewIds(c: Crypto, w: World, ops: seq<Operation>): seq<string> {
    if ops == [] then []
    else
      var front, op := ops[..|ops| - 1], ops[|ops| - 1];
      var before := Run(c, w, front);
      NewIds(c, w, front) + (if Step(c, before, op).authority != before.authority then [LeaseIdOf(op)] else [])
  }

  /** A step that changes the records remembers one session under the id of its lease. */
  lemma StepRemembers(c: Crypto, w: World, op: Operation)
    requires Good(c, w) && Step(c, w, op).authority != w.authority
    ensures LeaseIdOf(op) !in w.authority.records
    ensures exists digest: string, session: Session ::
              Step(c, w, op).authority == Remember(w.authority, LeaseIdOf(op), digest, session)
  {
    hide Remember, ValidateContract, DeriveSessionKey, Provision, Rotate, Revoke, Accounts, RecordsBounded;
  }

  /** The newest record moves towards the old end with every new one, and is dropped by the 1024th. */
  ghost predicate StandsAt(a: Authority, leaseId: string, record: (string, Session), age: nat) {
    if age < MAXIMUM_LEASE_RECORDS
    then age < |a.order| && a.order[|a.order| - 1 - age] == leaseId && leaseId in a.records && a.records[leaseId] == record
    else leaseId !in a.records
  }

  lemma RememberAges(a: Authority, leaseId: string, record: (string, Session), age: nat, other: string, digest: string,
                     session: Session)
    requires RecordsBounded(a) && StandsAt(a, leaseId, record, age) && other != leaseId && other !in a.records
    ensures StandsAt(Remember(a, other, digest, session), leaseId, record, age + 1)
  {
    var after := Remember(a, other, digest, session);
    if age + 1 < MAXIMUM_LEASE_RECORDS {
      assert after.order[|after.order| - 2 - age] == leaseId;
      if |a.order| >= MAXIMUM_LEASE_RECORDS {
        assert a.order[0] != a.order[|a.order| - 1 - age];
      }
    }
  }

  lemma {:induction false} RecordAges(c: Crypto, w: World, ops: seq<Operation>, leaseId: string, record: (string, Session))
    requires Good(c, w) && StandsAt(w.authority, leaseId, record, 0) && leaseId !in NewIds(c, w, ops)
    ensures Good(c, Run(c, w, ops)) && StandsAt(Run(c, w, ops).authority, leaseId, record, |NewIds(c, w, ops)|)
  {
    hide RecordsSound, Accounts, Step, StandsAt, Remember, RecordsBounded;
    RunGood(c, w, ops);
    if ops != [] {
      var front, op := ops[..|ops| - 1], ops[|ops| - 1];
      var before := Run(c, w, front);
      RunGood(c, w, front);
      RecordAges(c, w, front, leaseId, record);
      if Step(c, before, op).authority != before.authority {
        StepRemembers(c, before, op);
        var digest: string, session: Session :|
          Step(c, before, op).authority == Remember(before.authority, LeaseIdOf(op), digest, session);
        RememberAges(before.authority, leaseId, record, |NewIds(c, w, front)|, LeaseIdOf(op), digest, session);
      }
    }
  }

  /** An authority refuses its own lease as a reused id until 1024 other leases have been remembered
      since, and accepts it from then on: in time, with an unchanged credential, and as long as the id
      is not used for yet another lease. */
  lemma OwnLeaseAcceptedOnceForgotten(c: Crypto, w: World, op: Operation, ops: seq<Operation>, receivedAt: int)
    requires Good(c, w) && op.IssueOp? && op.leaseId !in w.authority.records && op.route in w.vault.entries
    requires Issue(c, w.vault, w.authority, op.leaseId, op.sessionId, op.route, op.now, op.ttl, op.salt).1.Ok?
    requires op.leaseId !in NewIds(c, Step(c, w, op), ops)
    requires var later := Run(c, Step(c, w, op), ops).vault;
             op.route in later.entries && later.entries[op.route] == w.vault.entries[op.route]
    requires op.now - MAXIMUM_SESSION_CLOCK_SKEW <= receivedAt < op.now + op.ttl
    requires c.contractFingerprint(Issue(c, w.vault, w.authority, op.leaseId, op.sessionId, op.route, op.now, op.ttl, op.salt).1.value.contract)
             != c.requestFingerprint(op.leaseId, op.sessionId, op.route, op.now, op.now + op.ttl)
    ensures var session := Issue(c, w.vault, w.authority, op.leaseId, op.sessionId, op.route, op.now, op.ttl, op.salt).1.value;
            var later := Run(c, Step(c, w, op), ops);
            var accepted := Accept(c, later.vault, later.authority, session.contract, receivedAt).1;
            accepted == if |NewIds(c, Step(c, w, op), ops)| >= MAXIMUM_LEASE_RECORDS then Ok(session) else Rejected(LeaseIdReused)
  {
    hide RecordsSound, Accounts, Evolves, Issue, Accept, NewIds, Run, ActiveSessionKey;
    var after := Step(c, w, op);
    StepGood(c, w, op);
    IssuedIsNewest(c, w, op);
    RecordAges(c, after, ops, op.leaseId, after.authority.records[op.leaseId]);
    var later := Run(c, after, ops);
    OwnLeaseAcceptedIff(c, w.vault, w.authority, op.leaseId, op.sessionId, op.route, op.now, op.ttl, op.salt,
                        later.vault, later.authority, receivedAt);
  }

  lemma IssuedIsNewest(c: Crypto, w: World, op: Operation)
    requires op.IssueOp? && op.leaseId !in w.authority.records
    requires Issue(c, w.vault, w.authority, op.leaseId, op.sessionId, op.route, op.now, op.ttl, op.salt).1.Ok?
    ensures var after := Step(c, w, op).authority;
            && op.leaseId in after.records
            && after.records[op.leaseId].0 == c.requestFingerprint(op.leaseId, op.sessionId, op.route, op.now, op.now + op.ttl)
            && StandsAt(after, op.leaseId, after.records[op.leaseId], 0)
  {}
}
