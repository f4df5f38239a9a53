/** The API-key verification cache in front of the slow verifier. */
module AuthCache {
  import opened Domain

  datatype Principal = Principal(apiKeyId: nat, rateLimitPerSec: int, scope: string)

  /** A parsed split token. */
  datatype Token = Token(keyId: string, secret: string)

  /** A row of `api_keys`. */
  datatype KeyRecord = KeyRecord(secretHash: string, principal: Principal, revoked: bool)

  datatype Entry = Entry(secretDigest: string, principal: Principal, cachedAt: int)

  /** The two cryptographic primitives: the SHA-256 digest of a presented key and
      the Argon2id check of a secret against a stored hash. */
  datatype Crypto = Crypto(digest: Token -> string, verifies: (string, string) -> bool)

  ghost predicate CollisionFree(c: Crypto) {
    forall x, y :: c.digest(x) == c.digest(y) ==> x == y
  }

  /** `verify_api_key`: active record, matching secret. */
  function VerifyApiKey(c: Crypto, records: map<string, KeyRecord>, t: Token): Option<Principal> {
    if t.keyId !in records || records[t.keyId].revoked then None
    else if !c.verifies(t.secret, records[t.keyId].secretHash) then None
    else Some(records[t.keyId].principal)
  }

  /** The record of the key is there, not revoked, and holds the hash of the secret. */
  predicate Accepts(c: Crypto, records: map<string, KeyRecord>, t: Token, p: Principal) {
    && t.keyId in records && !records[t.keyId].revoked
    && c.verifies(t.secret, records[t.keyId].secretHash)
    && p == records[t.keyId].principal
  }

  /** The entry `get` may answer from: present, not older than the TTL, same digest. */
  function Hit(entries: map<string, Entry>, ttl: int, keyId: string, digest: string, now: int): Option<Principal> {
    if keyId in entries && now - entries[keyId].cachedAt <= ttl && entries[keyId].secretDigest == digest
    then Some(entries[keyId].principal) else None
  }

  /** The entries `get` leaves: only an expired entry of the asked key goes. */
  function AfterGet(entries: map<string, Entry>, ttl: int, keyId: string, now: int): map<string, Entry> {
    if keyId in entries && now - entries[keyId].cachedAt > ttl then entries - {keyId} else entries
  }

  class ApiKeyVerificationCache {
    const ttlSeconds: int
    var entries: map<string, Entry>

    constructor (ttlSeconds: int)
      ensures this.ttlSeconds == ttlSeconds && entries == map[]
    {
      this.ttlSeconds := ttlSeconds;
      entries := map[];
    }

    method Get(keyId: string, secretDigest: string, now: int) returns (principal: Option<Principal>)
      modifies this
      ensures principal == Hit(old(entries), ttlSeconds, keyId, secretDigest, now)
      ensures entries == AfterGet(old(entries), ttlSeconds, keyId, now)
    {
      if keyId !in entries {
        return None;
      }
      var entry := entries[keyId];
      if now - entry.cachedAt > ttlSeconds {
        entries := entries - {keyId};
        return None;
      }
      if secretDigest != entry.secretDigest {
        return None;
      }
      return Some(entry.principal);
    }

    method Put(keyId: string, secretDigest: string, principal: Principal, now: int)
      modifies this
      ensures entries == old(entries)[keyId := Entry(secretDigest, principal, now)]
    {
      entries := entries[keyId := Entry(secretDigest, principal, now)];
    }

    method Invalidate(keyId: string)
      modifies this
      ensures entries == old(entries) - {keyId}
    {
      entries := entries - {keyId};
    }
  }

  /** `require_api_key` when nothing else runs meanwhile. */
  method RequireApiKey(cache: ApiKeyVerificationCache, c: Crypto, records: map<string, KeyRecord>, t: Token, now: int)
    returns (principal: Option<Principal>)
    modifies cache
    ensures var hit := Hit(old(cache.entries), cache.ttlSeconds, t.keyId, c.digest(t), now);
            principal == if hit.Some? then hit else VerifyApiKey(c, records, t)
    ensures Hit(old(cache.entries), cache.ttlSeconds, t.keyId, c.digest(t), now).None? ==>
              forall p :: principal == Some(p) <==> Accepts(c, records, t, p)
    ensures cache.entries ==
            var kept := AfterGet(old(cache.entries), cache.ttlSeconds, t.keyId, now);
            if Hit(old(cache.entries), cache.ttlSeconds, t.keyId, c.digest(t), now).None? && principal.Some?
            then kept[t.keyId := Entry(c.digest(t), principal.value, now)] else kept
  {
    var digest := c.digest(t);
    principal := cache.Get(t.keyId, digest, now);
    if principal.Some? {
      return;
    }
    principal := VerifyApiKey(c, records, t);
    if principal.Some? {
      cache.Put(t.keyId, digest, principal.value, now);
    }
  }

  /** Looking a key up never renews an entry and never drops one that is alive,
      whether the presented secret matches or not. */
  lemma GetNeverRenewsNorEvicts(entries: map<string, Entry>, ttl: int, keyId: string, now: int, other: string)
    ensures var r := AfterGet(entries, ttl, keyId, now);
            && (other in r ==> other in entries && r[other] == entries[other])
            && (other in entries && other !in r <==>
                  other == keyId && other in entries && now - entries[other].cachedAt > ttl)
  {
  }

  // ------------------------------------------------ many requests at the same time

  /** A guard call that missed the cache: before and after its database lookup. */
  datatype Pending = Looking(token: Token) | Verified(token: Token, principal: Principal)

  datatype Answer = Answer(token: Token, at: int, principal: Option<Principal>)

  datatype Guard = Guard(entries: map<string, Entry>, records: map<string, KeyRecord>,
                         pending: map<nat, Pending>, answers: seq<Answer>)

  /** Steps between two awaits of a guard call, and an operator revoking a key. */
  datatype Act =
    | Arrive(id: nat, token: Token, now: int)
    | Look(id: nat, now: int)
    | Store(id: nat, now: int)
    | Revoke(keyId: string)

  function Do(g: Guard, c: Crypto, ttl: int, a: Act): Guard {
    match a
    case Arrive(id, t, now) =>
      if id in g.pending then g
      else
        var hit := Hit(g.entries, ttl, t.keyId, c.digest(t), now);
        var kept := g.(entries := AfterGet(g.entries, ttl, t.keyId, now));
        if hit.Some? then kept.(answers := g.answers + [Answer(t, now, hit)])
        else kept.(pending := g.pending[id := Looking(t)])
    case Look(id, now) =>
      if id !in g.pending || g.pending[id].Verified? then g
      else
        var t := g.pending[id].token;
        var p := VerifyApiKey(c, g.records, t);
        if p.Some? then g.(pending := g.pending[id := Verified(t, p.value)])
        else g.(pending := g.pending - {id}, answers := g.answers + [Answer(t, now, None)])
    case Store(id, now) =>
      if id !in g.pending || g.pending[id].Looking? then g
      else
        var t, p := g.pending[id].token, g.pending[id].principal;
        g.(entries := g.entries[t.keyId := Entry(c.digest(t), p, now)],
           pending := g.pending - {id},
           answers := g.answers + [Answer(t, now, Some(p))])
    case Revoke(keyId) =>
      if keyId in g.records then g.(records := g.records[keyId := g.records[keyId].(revoked := true)]) else g
  }

  function DoAll(g: Guard, c: Crypto, ttl: int, acts: seq<Act>): Guard
    decreases |acts|
  {
    if |acts| == 0 then g else DoAll(Do(g, c, ttl, acts[0]), c, ttl, acts[1..])
  }

  /** Everything remembered and everything answered is what the verifier says. */
  ghost predicate Truthful(g: Guard, c: Crypto) {
    && (forall k :: k in g.entries ==> exists secret ::
          g.entries[k].secretDigest == c.digest(Token(k, secret))
          && VerifyApiKey(c, g.records, Token(k, secret)) == Some(g.entries[k].principal))
    && (forall id :: id in g.pending && g.pending[id].Verified? ==>
          VerifyApiKey(c, g.records, g.pending[id].token) == Some(g.pending[id].principal))
    && (forall i :: 0 <= i < |g.answers| ==>
          g.answers[i].principal == VerifyApiKey(c, g.records, g.answers[i].token))
  }

  /** The three steps of one guard call, taken without a break, leave the cache and
      give the answer that `RequireApiKey` promises. */
  lemma UnbrokenCall(g: Guard, c: Crypto, ttl: int, id: nat, t: Token, now: int)
    requires id !in g.pending
    ensures var r := DoAll(g, c, ttl, [Arrive(id, t, now), Look(id, now), Store(id, now)]);
            var hit, kept := Hit(g.entries, ttl, t.keyId, c.digest(t), now), AfterGet(g.entries, ttl, t.keyId, now);
            var principal := if hit.Some? then hit else VerifyApiKey(c, g.records, t);
            && r.answers == g.answers + [Answer(t, now, principal)] && r.records == g.records
            && r.pending == g.pending
            && r.entries == if hit.None? && principal.Some?
                            then kept[t.keyId := Entry(c.digest(t), principal.value, now)] else kept
  {
    var acts := [Arrive(id, t, now), Look(id, now), Store(id, now)];
    var g1 := Do(g, c, ttl, acts[0]);
    var g2 := Do(g1, c, ttl, acts[1]);
    var g3 := Do(g2, c, ttl, acts[2]);
    assert acts[1..] == [acts[1], acts[2]] && [acts[1], acts[2]][1..] == [acts[2]] && [acts[2]][1..] == [];
    assert DoAll(g2, c, ttl, [acts[2]]) == DoAll(g3, c, ttl, []) == g3;
    assert DoAll(g1, c, ttl, acts[1..]) == DoAll(g2, c, ttl, [acts[2]]);
    assert g3.pending == g.pending;
  }

  lemma DoKeepsTruth(g: Guard, c: Crypto, ttl: int, a: Act)
    requires CollisionFree(c) && Truthful(g, c) && !a.Revoke?
    ensures Truthful(Do(g, c, ttl, a), c) && Do(g, c, ttl, a).records == g.records
  {
    match a
    case Arrive(id, t, now) =>
      if t.keyId in g.entries {
        var secret :| g.entries[t.keyId].secretDigest == c.digest(Token(t.keyId, secret))
                      && VerifyApiKey(c, g.records, Token(t.keyId, secret)) == Some(g.entries[t.keyId].principal);
      }
    case Store(id, now) =>
      if id in g.pending && g.pending[id].Verified? {
        var t := g.pending[id].token;
        assert t == Token(t.keyId, t.secret);
      }
    case _ =>
  }

  /** While no key record changes, the cached guard gives every request, in every
      interleaving, at every time and for every TTL, the verifier's own answer. */
  lemma {:induction false} CacheRefinesVerifier(g: Guard, c: Crypto, ttl: int, acts: seq<Act>)
    requires CollisionFree(c) && Truthful(g, c) && forall a :: a in acts ==> !a.Revoke?
    ensures Truthful(DoAll(g, c, ttl, acts), c) && DoAll(g, c, ttl, acts).records == g.records
    decreases |acts|
  {
    if |acts| > 0 {
      DoKeepsTruth(g, c, ttl, acts[0]);
      CacheRefinesVerifier(Do(g, c, ttl, acts[0]), c, ttl, acts[1..]);
    }
  }

  /** From a cold cache, with nothing assumed about what it holds: every request of
      every run is accepted as `p` exactly if its key has an unrevoked record of `p`
      whose hash its secret verifies against. */
  lemma ColdCacheRefinesVerifier(records: map<string, KeyRecord>, c: Crypto, ttl: int, acts: seq<Act>)
    requires CollisionFree(c) && forall a :: a in acts ==> !a.Revoke?
    ensures var answers := DoAll(Guard(map[], records, map[], []), c, ttl, acts).answers;
            forall i, p :: 0 <= i < |answers| ==>
              (answers[i].principal == Some(p) <==> Accepts(c, records, answers[i].token, p))
  {
    CacheRefinesVerifier(Guard(map[], records, map[], []), c, ttl, acts);
  }

  /** `a` finishes a verification at clock `at`. */
  predicate PutsAt(acts: seq<Act>, at: int) {
    exists a :: a in acts && a.Store? && a.now == at
  }

  /** What is cached carries the clock of a `put` among `acts`; what was accepted was
      accepted at most the TTL after one. */
  ghost predicate Traced(g: Guard, ttl: int, acts: seq<Act>) {
    && (forall k :: k in g.entries ==> PutsAt(acts, g.entries[k].cachedAt))
    && (forall i :: 0 <= i < |g.answers| && g.answers[i].principal.Some? ==>
          exists at :: PutsAt(acts, at) && g.answers[i].at - at <= ttl)
  }

  lemma DoKeepsTrace(g: Guard, c: Crypto, ttl: int, done: seq<Act>, a: Act)
    requires Traced(g, ttl, done) && ttl >= 0
    ensures Traced(Do(g, c, ttl, a), ttl, done + [a])
  {
    var acts, g' := done + [a], Do(g, c, ttl, a);
    forall at | PutsAt(done, at) ensures PutsAt(acts, at) {
      var p :| p in done && p.Store? && p.now == at;
      assert p in acts;
    }
    if a.Store? {
      assert a in acts && PutsAt(acts, a.now);
    }
  }

  lemma {:induction false} TraceFrom(g: Guard, c: Crypto, ttl: int, done: seq<Act>, acts: seq<Act>)
    requires Traced(g, ttl, done) && ttl >= 0
    ensures Traced(DoAll(g, c, ttl, acts), ttl, done + acts)
    decreases |acts|
  {
    if |acts| == 0 {
      assert done + acts == done;
    } else {
      DoKeepsTrace(g, c, ttl, done, acts[0]);
      TraceFrom(Do(g, c, ttl, acts[0]), c, ttl, done + [acts[0]], acts[1..]);
      assert done + [acts[0]] + acts[1..] == done + acts;
    }
  }

  /** From a cold cache, revocations included: nothing is accepted without a finished
      verification at most the TTL before it. */
  lemma AcceptanceIsFresh(records: map<string, KeyRecord>, c: Crypto, ttl: int, acts: seq<Act>)
    requires ttl >= 0
    ensures var answers := DoAll(Guard(map[], records, map[], []), c, ttl, acts).answers;
            forall i :: 0 <= i < |answers| && answers[i].principal.Some? ==>
              exists at :: PutsAt(acts, at) && answers[i].at - at <= ttl
  {
    TraceFrom(Guard(map[], records, map[], []), c, ttl, [], acts);
    assert [] + acts == acts;
  }

  /** Key `k` is revoked, no verification of it is in flight, and its last `put`
      was at `lastPut` or before. */
  ghost predicate Fading(g: Guard, k: string, lastPut: int) {
    && (k in g.records ==> g.records[k].revoked)
    && (forall id :: id in g.pending && g.pending[id].Verified? ==> g.pending[id].token.keyId != k)
    && (k in g.entries ==> g.entries[k].cachedAt <= lastPut)
  }

  /** From `from` on, `k` is only ever accepted within the TTL of its last put. */
  ghost predicate RefusedAfter(answers: seq<Answer>, from: nat, k: string, deadline: int) {
    forall i :: from <= i < |answers| && answers[i].token.keyId == k && answers[i].principal.Some? ==>
      answers[i].at <= deadline
  }

  /** Revocation takes effect: whatever is presented, however requests interleave,
      once the TTL has passed since the last put a revoked key is always refused. */
  lemma {:induction false} RevokedKeyFades(g: Guard, c: Crypto, ttl: int, acts: seq<Act>,
                                           k: string, lastPut: int, from: nat)
    requires Fading(g, k, lastPut) && from <= |g.answers| && RefusedAfter(g.answers, from, k, lastPut + ttl)
    ensures Fading(DoAll(g, c, ttl, acts), k, lastPut)
    ensures RefusedAfter(DoAll(g, c, ttl, acts).answers, from, k, lastPut + ttl)
    decreases |acts|
  {
    if |acts| > 0 {
      RevokedKeyFades(Do(g, c, ttl, acts[0]), c, ttl, acts[1..], k, lastPut, from);
    }
  }

  /** The bound is exact: a revoked key with a matching entry is accepted up to and
      including the last instant of the TTL, and not after. */
  lemma RevokedKeyAcceptedIffFresh(g: Guard, c: Crypto, ttl: int, id: nat, t: Token, now: int)
    requires t.keyId in g.records && g.records[t.keyId].revoked && id !in g.pending
    requires t.keyId in g.entries && g.entries[t.keyId].secretDigest == c.digest(t)
    ensures var r := DoAll(g, c, ttl, [Arrive(id, t, now), Look(id, now), Store(id, now)]);
            && |r.answers| == |g.answers| + 1 && r.answers[|g.answers|].token == t
            && (r.answers[|g.answers|].principal.Some? <==> now - g.entries[t.keyId].cachedAt <= ttl)
  {
    var acts := [Arrive(id, t, now), Look(id, now), Store(id, now)];
    var g1 := Do(g, c, ttl, acts[0]);
    var g2 := Do(g1, c, ttl, acts[1]);
    var g3 := Do(g2, c, ttl, acts[2]);
    assert acts[1..] == [acts[1], acts[2]] && [acts[1], acts[2]][1..] == [acts[2]] && [acts[2]][1..] == [];
    assert DoAll(g2, c, ttl, [acts[2]]) == DoAll(g3, c, ttl, []) == g3;
    assert DoAll(g1, c, ttl, acts[1..]) == DoAll(g2, c, ttl, [acts[2]]);
  }
}
