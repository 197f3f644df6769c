/**
 The life of a secret key under one identifier, shared by the device registry and the link
 credential vault: provisioned once, rotated at most 64 times, revoked once and for all.

 Secrets are remembered only through their fingerprints; the fingerprint is a function parameter
 of which nothing is assumed. What is kept is an account: the revision of an entry counts its
 rotations and its revocation, and the fingerprints in use number the keys that were ever issued.
 Entries only move forward, which is what later results on runs rely on.
 */
module KeyStore {

  const MAXIMUM_RETIRED_KEYS := 64

  type Secret = seq<bv8>

  datatype Entry = Entry(keyId: string, secret: Secret, revision: nat, revoked: bool, retired: set<string>)

  datatype Store<!Id> = Store(entries: map<Id, Entry>, used: set<string>)

  // ---- The three changes -----------------------------------------------------------------------

  function Provisioned<Id>(s: Store<Id>, id: Id, keyId: string, secret: Secret, fingerprint: Secret -> string): Store<Id> {
    Store(s.entries[id := Entry(keyId, secret, 1, false, {})], s.used + {fingerprint(secret)})
  }

  function Rotated<Id>(s: Store<Id>, id: Id, keyId: string, secret: Secret, fingerprint: Secret -> string): Store<Id>
    requires id in s.entries
  {
    var e := s.entries[id];
    Store(s.entries[id := Entry(keyId, secret, e.revision + 1, e.revoked, e.retired + {e.keyId})],
          s.used + {fingerprint(secret)})
  }

  function Revoked<Id>(s: Store<Id>, id: Id): Store<Id>
    requires id in s.entries
  {
    var e := s.entries[id];
    s.(entries := s.entries[id := e.(revoked := true, revision := e.revision + 1)])
  }

  predicate ProvisionAllowed<Id(==)>(s: Store<Id>, id: Id, secret: Secret, fingerprint: Secret -> string) {
    id !in s.entries && fingerprint(secret) !in s.used
  }

  predicate RotationAllowed<Id(==)>(s: Store<Id>, id: Id, keyId: string, secret: Secret, fingerprint: Secret -> string) {
    && id in s.entries && !s.entries[id].revoked
    && keyId != s.entries[id].keyId && keyId !in s.entries[id].retired
    && |s.entries[id].retired| < MAXIMUM_RETIRED_KEYS
    && fingerprint(secret) !in s.used
  }

  predicate RevocationAllowed<Id(==)>(s: Store<Id>, id: Id) {
    id in s.entries && !s.entries[id].revoked
  }

  /** One change of the store, or none. */
  ghost predicate Changes<Id(!new)>(s: Store<Id>, t: Store<Id>, fingerprint: Secret -> string) {
    || t == s
    || (exists id, keyId, secret :: ProvisionAllowed(s, id, secret, fingerprint) && t == Provisioned(s, id, keyId, secret, fingerprint))
    || (exists id, keyId, secret :: RotationAllowed(s, id, keyId, secret, fingerprint) && id in s.entries && t == Rotated(s, id, keyId, secret, fingerprint))
    || (exists id :: RevocationAllowed(s, id) && id in s.entries && t == Revoked(s, id))
  }

  // ---- Accounting ------------------------------------------------------------------------------

  /** The keys an entry has had so far. */
  function KeysHad(e: Entry): nat {
    1 + |e.retired|
  }

  ghost function TotalKeys<Id>(entries: map<Id, Entry>): nat
    decreases |entries|
  {
    if entries == map[] then 0
    else
      var id :| id in entries;
      KeysHad(entries[id]) + TotalKeys(entries - {id})
  }

  lemma {:induction false} TotalKeysSplits<Id>(entries: map<Id, Entry>, id: Id)
    requires id in entries
    ensures TotalKeys(entries) == KeysHad(entries[id]) + TotalKeys(entries - {id})
    decreases |entries|
  {
    var first :| first in entries && TotalKeys(entries) == KeysHad(entries[first]) + TotalKeys(entries - {first});
    if first != id {
      TotalKeysSplits(entries - {first}, id);
      TotalKeysSplits(entries - {id}, first);
      assert entries - {first} - {id} == entries - {id} - {first};
    }
  }

  lemma TotalKeysUpdate<Id>(entries: map<Id, Entry>, id: Id, e: Entry)
    ensures TotalKeys(entries[id := e]) == TotalKeys(entries - {id}) + KeysHad(e)
    ensures id !in entries ==> TotalKeys(entries[id := e]) == TotalKeys(entries) + KeysHad(e)
  {
    TotalKeysSplits(entries[id := e], id);
    assert entries[id := e] - {id} == entries - {id};
    if id !in entries {
      assert entries - {id} == entries;
    }
  }

  ghost predicate EntryAccounts(e: Entry) {
    && e.revision == 1 + |e.retired| + (if e.revoked then 1 else 0)
    && e.keyId !in e.retired
    && |e.retired| <= MAXIMUM_RETIRED_KEYS
  }

  /** Revisions count every change, the current key is never a retired one, every key ever issued
      left one fingerprint of its own, and no two entries share a secret. */
  ghost predicate Accounts<Id(!new)>(s: Store<Id>, fingerprint: Secret -> string) {
    && (forall id :: id in s.entries ==> EntryAccounts(s.entries[id]) && fingerprint(s.entries[id].secret) in s.used)
    && |s.used| == TotalKeys(s.entries)
    && forall a, b :: a in s.entries && b in s.entries && a != b
         ==> fingerprint(s.entries[a].secret) != fingerprint(s.entries[b].secret)
  }

  lemma ProvisionAccounts<Id(!new)>(s: Store<Id>, id: Id, keyId: string, secret: Secret, fingerprint: Secret -> string)
    requires Accounts(s, fingerprint) && ProvisionAllowed(s, id, secret, fingerprint)
    ensures Accounts(Provisioned(s, id, keyId, secret, fingerprint), fingerprint)
  {
    hide TotalKeys;
    TotalKeysUpdate(s.entries, id, Entry(keyId, secret, 1, false, {}));
  }

  lemma RotationAccounts<Id(!new)>(s: Store<Id>, id: Id, keyId: string, secret: Secret, fingerprint: Secret -> string)
    requires Accounts(s, fingerprint) && RotationAllowed(s, id, keyId, secret, fingerprint)
    ensures Accounts(Rotated(s, id, keyId, secret, fingerprint), fingerprint)
  {
    var t := Rotated(s, id, keyId, secret, fingerprint);
    TotalKeysSplits(s.entries, id);
    TotalKeysUpdate(s.entries, id, t.entries[id]);
  }

  lemma RevocationAccounts<Id(!new)>(s: Store<Id>, id: Id, fingerprint: Secret -> string)
    requires Accounts(s, fingerprint) && RevocationAllowed(s, id)
    ensures Accounts(Revoked(s, id), fingerprint)
  {
    TotalKeysSplits(s.entries, id);
    TotalKeysUpdate(s.entries, id, Revoked(s, id).entries[id]);
  }

  lemma ChangeAccounts<Id(!new)>(s: Store<Id>, t: Store<Id>, fingerprint: Secret -> string)
    requires Accounts(s, fingerprint) && Changes(s, t, fingerprint)
    ensures Accounts(t, fingerprint)
  {
    hide Accounts, Provisioned, Rotated, Revoked;
    if t != s {
      if id, keyId, secret :| ProvisionAllowed(s, id, secret, fingerprint) && t == Provisioned(s, id, keyId, secret, fingerprint) {
        ProvisionAccounts(s, id, keyId, secret, fingerprint);
      } else if id, keyId, secret :| RotationAllowed(s, id, keyId, secret, fingerprint) && t == Rotated(s, id, keyId, secret, fingerprint) {
        RotationAccounts(s, id, keyId, secret, fingerprint);
      } else {
        var id :| RevocationAllowed(s, id) && t == Revoked(s, id);
        RevocationAccounts(s, id, fingerprint);
      }
    }
  }

  // ---- Time only moves forward -----------------------------------------------------------------

  /** `later` is `earlier` after any number of changes: an entry is either exactly as it was, or it
      has a higher revision; retired keys stay retired, the old key among them once replaced; and
      revocation is final. */
  ghost predicate Succeeds(earlier: Entry, later: Entry) {
    && earlier.retired <= later.retired
    && (earlier.revoked ==> later == earlier)
    && (later.keyId != earlier.keyId ==> earlier.keyId in later.retired)
    && (later != earlier ==> later.revision > earlier.revision)
    && (later.revision == earlier.revision ==> later == earlier)
  }

  ghost predicate Evolves<Id(!new)>(s: Store<Id>, t: Store<Id>) {
    && s.used <= t.used
    && forall id :: id in s.entries ==> id in t.entries && Succeeds(s.entries[id], t.entries[id])
  }

  lemma RotationEvolves<Id(!new)>(s: Store<Id>, id: Id, keyId: string, secret: Secret, fingerprint: Secret -> string)
    requires RotationAllowed(s, id, keyId, secret, fingerprint)
    ensures Evolves(s, Rotated(s, id, keyId, secret, fingerprint))
  {}

  lemma RevocationEvolves<Id(!new)>(s: Store<Id>, id: Id)
    requires RevocationAllowed(s, id)
    ensures Evolves(s, Revoked(s, id))
  {}

  lemma ProvisionEvolves<Id(!new)>(s: Store<Id>, id: Id, keyId: string, secret: Secret, fingerprint: Secret -> string)
    requires ProvisionAllowed(s, id, secret, fingerprint)
    ensures Evolves(s, Provisioned(s, id, keyId, secret, fingerprint))
  {}

  lemma ChangeEvolves<Id(!new)>(s: Store<Id>, t: Store<Id>, fingerprint: Secret -> string)
    requires Changes(s, t, fingerprint)
    ensures Evolves(s, t)
  {
    if t != s {
      hide Evolves, Provisioned, Rotated, Revoked, ProvisionAllowed, RotationAllowed, RevocationAllowed;
      if id, keyId, secret :| ProvisionAllowed(s, id, secret, fingerprint) && t == Provisioned(s, id, keyId, secret, fingerprint) {
        ProvisionEvolves(s, id, keyId, secret, fingerprint);
      } else if id, keyId, secret :| RotationAllowed(s, id, keyId, secret, fingerprint) && id in s.entries && t == Rotated(s, id, keyId, secret, fingerprint) {
        RotationEvolves(s, id, keyId, secret, fingerprint);
      } else {
        var id :| RevocationAllowed(s, id) && id in s.entries && t == Revoked(s, id);
        RevocationEvolves(s, id);
      }
    }
  }

  lemma SucceedsTransitive(a: Entry, b: Entry, c: Entry)
    requires Succeeds(a, b) && Succeeds(b, c) && c.keyId !in c.retired
    ensures Succeeds(a, c)
  {}

  lemma EvolvesTransitive<Id(!new)>(s: Store<Id>, t: Store<Id>, u: Store<Id>, fingerprint: Secret -> string)
    requires Evolves(s, t) && Evolves(t, u) && Accounts(u, fingerprint)
    ensures Evolves(s, u)
  {
    hide Succeeds;
    forall id | id in s.entries ensures id in u.entries && Succeeds(s.entries[id], u.entries[id]) {
      SucceedsTransitive(s.entries[id], t.entries[id], u.entries[id]);
    }
  }
}
