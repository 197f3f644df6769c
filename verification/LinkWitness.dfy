/**
 A run in which an authority forgets a lease it issued: as many other leases as it remembers are
 issued on the same credential, and then its own lease is accepted.
 */
module LinkWitness {
  import opened Sequences
  import opened KeyStore
  import opened LinkSessions
  import opened LinkHistory

  /** `n` more requests like the first one, each under its own id. */
  function More(op: Operation, n: nat): seq<Operation>
    requires op.IssueOp?
  {
    if n == 0 then [] else More(op, n - 1) + [op.(leaseId := Longer(op.leaseId, n))]
  }

  function LongerIds(id: string, n: nat): seq<string> {
    if n == 0 then [] else LongerIds(id, n - 1) + [Longer(id, n)]
  }

  lemma {:induction false} LongerIdsAre(id: string, n: nat, other: string)
    ensures |LongerIds(id, n)| == n
    ensures other in LongerIds(id, n) ==> |id| < |other| <= |id| + n
  {
    if n > 0 {
      LongerIdsAre(id, n - 1, other);
    }
  }

  /** A request that the vault can serve; every contract built here passes the schema. */
  ghost predicate Servable(c: Crypto, v: Vault, op: Operation) {
    && op.IssueOp? && op.route in v.entries && !v.entries[op.route].revoked
    && MINIMUM_SESSION_TTL <= op.ttl <= MAXIMUM_SESSION_TTL && |op.salt| == SESSION_SALT_BYTES
    && forall contract :: c.schemaValid(contract)
  }

  lemma NewLeaseIsIssued(c: Crypto, w: World, op: Operation)
    requires Servable(c, w.vault, op) && op.leaseId !in w.authority.records
    ensures Issue(c, w.vault, w.authority, op.leaseId, op.sessionId, op.route, op.now, op.ttl, op.salt).1.Ok?
    ensures var after := Step(c, w, op);
            && after.vault == w.vault && after.authority != w.authority && op.leaseId in after.authority.records
            && forall id :: id in after.authority.records ==> id == op.leaseId || id in w.authority.records
  {}

  /** Each request adds its own lease and nothing else. */
  lemma {:induction false} MoreAreIssued(c: Crypto, w: World, op: Operation, n: nat)
    requires Servable(c, w.vault, op)
    requires forall id :: id in w.authority.records ==> |id| <= |op.leaseId|
    ensures var after := Run(c, w, More(op, n));
            && after.vault == w.vault && NewIds(c, w, More(op, n)) == LongerIds(op.leaseId, n)
            && forall id :: id in after.authority.records ==> |id| <= |op.leaseId| + n
  {
    hide Servable, Step, Longer, Run, NewIds;
    NoMore(c, w);
    RouteIsKnown(c, w, op);
    if n > 0 {
      MoreAreIssued(c, w, op, n - 1);
      var front, next := More(op, n - 1), op.(leaseId := Longer(op.leaseId, n));
      NextIsServable(c, w.vault, op, next);
      NewLeaseIsIssued(c, Run(c, w, front), next);
      OneMoreStep(c, w, front, next);
    }
  }

  lemma NoMore(c: Crypto, w: World)
    ensures Run(c, w, []) == w && NewIds(c, w, []) == []
  {}

  lemma OneMoreStep(c: Crypto, w: World, ops: seq<Operation>, op: Operation)
    ensures var before := Run(c, w, ops);
            && Run(c, w, ops + [op]) == Step(c, before, op)
            && (Step(c, before, op).authority != before.authority ==>
                  NewIds(c, w, ops + [op]) == NewIds(c, w, ops) + [LeaseIdOf(op)])
  {
    hide Step;
    assert (ops + [op])[..|ops|] == ops;
  }

  lemma NextIsServable(c: Crypto, v: Vault, op: Operation, next: Operation)
    requires Servable(c, v, op) && next.IssueOp? && next == op.(leaseId := next.leaseId)
    ensures Servable(c, v, next)
  {}

  /** From a provisioned credential and an authority that remembers nothing: the own lease is refused
      after 1023 other leases, and accepted after one more. */
  lemma OwnLeaseIsForgotten(c: Crypto, w: World, op: Operation, receivedAt: int)
    requires Good(c, w) && w.authority == NO_RECORDS && Servable(c, w.vault, op)
    requires op.now - MAXIMUM_SESSION_CLOCK_SKEW <= receivedAt < op.now + op.ttl
    requires forall contract :: c.contractFingerprint(contract)
               != c.requestFingerprint(op.leaseId, op.sessionId, op.route, op.now, op.now + op.ttl)
    ensures Issue(c, w.vault, w.authority, op.leaseId, op.sessionId, op.route, op.now, op.ttl, op.salt).1.Ok?
    ensures var session := Issue(c, w.vault, w.authority, op.leaseId, op.sessionId, op.route, op.now, op.ttl, op.salt).1.value;
            var full := Run(c, Step(c, w, op), More(op, MAXIMUM_LEASE_RECORDS - 1));
            var later := Run(c, Step(c, w, op), More(op, MAXIMUM_LEASE_RECORDS));
            && Accept(c, full.vault, full.authority, session.contract, receivedAt).1 == Rejected(LeaseIdReused)
            && Accept(c, later.vault, later.authority, session.contract, receivedAt).1 == Ok(session)
  {
    hide Good, Issue, Accept, Run, NewIds, Step, Servable;
    NewLeaseIsIssued(c, w, op);
    RouteIsKnown(c, w, op);
    ForgottenAfter(c, w, op, MAXIMUM_LEASE_RECORDS - 1, receivedAt);
    ForgottenAfter(c, w, op, MAXIMUM_LEASE_RECORDS, receivedAt);
  }

  lemma RouteIsKnown(c: Crypto, w: World, op: Operation)
    requires Servable(c, w.vault, op)
    ensures op.IssueOp? && op.route in w.vault.entries
  {}

  lemma ForgottenAfter(c: Crypto, w: World, op: Operation, n: nat, receivedAt: int)
    requires Good(c, w) && w.authority == NO_RECORDS && Servable(c, w.vault, op)
    requires Issue(c, w.vault, w.authority, op.leaseId, op.sessionId, op.route, op.now, op.ttl, op.salt).1.Ok?
    requires op.now - MAXIMUM_SESSION_CLOCK_SKEW <= receivedAt < op.now + op.ttl
    requires forall contract :: c.contractFingerprint(contract)
               != c.requestFingerprint(op.leaseId, op.sessionId, op.route, op.now, op.now + op.ttl)
    ensures var session := Issue(c, w.vault, w.authority, op.leaseId, op.sessionId, op.route, op.now, op.ttl, op.salt).1.value;
            var later := Run(c, Step(c, w, op), More(op, n));
            Accept(c, later.vault, later.authority, session.contract, receivedAt).1
            == if n >= MAXIMUM_LEASE_RECORDS then Ok(session) else Rejected(LeaseIdReused)
  {
    hide Good, Issue, Accept, Run, NewIds, Step, Servable;
    NewLeaseIsIssued(c, w, op);
    RouteIsKnown(c, w, op);
    MoreAreIssued(c, Step(c, w, op), op, n);
    LongerIdsAre(op.leaseId, n, op.leaseId);
    OwnLeaseAcceptedOnceForgotten(c, w, op, More(op, n), receivedAt);
  }
}
