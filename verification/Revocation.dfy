/**
 Token revocation: logout and refresh put the hash of a JWT on a blacklist, a periodic cleanup
 deletes the rows of expired tokens, and the middleware and refresh consult the list after they
 have validated the token. Every method here performs at most one database operation on the list,
 so a run of methods is an interleaving of requests: a refresh is two methods, its lookup and its
 finish, and a request that validates first and goes to the database later carries both clock
 readings. Tokens are the raw strings of the requests: that is what the list holds the hashes of.
 */
module Revocation {
  import opened Common

  const DAY := 24 * 60 * 60

  datatype Claims = Claims(userId: string, tokenType: string, expiresAt: Option<int>, issuedAt: Option<int>)

  /** Fills in the times that the caller left out. */
  function GenerateClaims(c: Claims, now: int): (r: Claims)
    ensures r.expiresAt.Some? && r.issuedAt.Some? && r.userId == c.userId && r.tokenType == c.tokenType
    ensures c.expiresAt.Some? ==> r.expiresAt == c.expiresAt
    ensures c.expiresAt.None? ==> r.expiresAt == Some(now + DAY)
  {
    c.(expiresAt := if c.expiresAt.None? then Some(now + DAY) else c.expiresAt,
       issuedAt := if c.issuedAt.None? then Some(now) else c.issuedAt)
  }

  /** The token of an Authorization header, if it has the Bearer form. */
  function Bearer(header: string): Option<string> {
    if "Bearer " <= header then Some(header[7..]) else None
  }

  /** What the service cannot look into: signature and claims of a raw token, and SHA-256. */
  datatype Crypto = Crypto(claims: string -> Option<Claims>, hash: string -> string)

  ghost predicate CollisionFree(c: Crypto) {
    forall a, b :: c.hash(a) == c.hash(b) ==> a == b
  }

  function Expiry(c: Crypto, raw: string): Option<int> {
    if c.claims(raw).Some? then c.claims(raw).value.expiresAt else None
  }

  /** ValidateToken: well signed, and not expired (a token without `exp` never expires). */
  predicate Validates(c: Crypto, raw: string, at: int) {
    c.claims(raw).Some? && (Expiry(c, raw).Some? ==> at < Expiry(c, raw).value)
  }

  predicate IsMfa(c: Crypto, raw: string) {
    c.claims(raw).Some? && c.claims(raw).value.tokenType == "mfa"
  }

  /** A signed token is valid up to its expiry, exclusively, and without one for good. */
  lemma {:induction false} ValidUntilExpiry(c: Crypto, raw: string, at: int)
    ensures c.claims(raw).None? ==> !Validates(c, raw, at)
    ensures c.claims(raw).Some? && c.claims(raw).value.expiresAt.None? ==> Validates(c, raw, at)
    ensures c.claims(raw).Some? && c.claims(raw).value.expiresAt.Some? ==>
              (Validates(c, raw, at) <==> at < c.claims(raw).value.expiresAt.value)
  {
  }

  /** The token expired between the two clock readings of one request. */
  predicate Straddles(c: Crypto, raw: string, validatedAt: int, at: int) {
    Expiry(c, raw).Some? && validatedAt < Expiry(c, raw).value < at
  }

  lemma {:induction false} StraddlesExactly(c: Crypto, raw: string, validatedAt: int, at: int)
    ensures Straddles(c, raw, validatedAt, at) <==>
            && c.claims(raw).Some? && c.claims(raw).value.expiresAt.Some?
            && validatedAt < c.claims(raw).value.expiresAt.value < at
  {
  }

  /** Logout finds something to revoke in this header. */
  predicate Revokes(c: Crypto, header: string, validatedAt: int) {
    && Bearer(header).Some? && Bearer(header).value != ""
    && Validates(c, Bearer(header).value, validatedAt) && Expiry(c, Bearer(header).value).Some?
  }

  /** Every token the service issues expires, so logout can revoke it for as long as it validates. */
  lemma {:induction false} IssuedIsRevocable(crypto: Crypto, c: Claims, issuedAt: int, raw: string, at: int)
    requires crypto.claims(raw) == Some(GenerateClaims(c, issuedAt)) && raw != ""
    ensures Revokes(crypto, "Bearer " + raw, at) <==> Validates(crypto, raw, at)
    ensures c.expiresAt.None? ==> (Validates(crypto, raw, at) <==> at < issuedAt + 86400)
    ensures c.expiresAt.Some? ==> (Validates(crypto, raw, at) <==> at < c.expiresAt.value)
  {
    assert Bearer("Bearer " + raw) == Some(raw);
  }

  /** A refresh after its lookup: the tokens revoked by then, and the two clock readings. */
  datatype Lookup = Lookup(raw: string, seen: set<string>, validatedAt: int, at: int)

  /** A finished refresh that issued a token, and the tokens revoked when it did. */
  datatype Exchange = Exchange(lookup: Lookup, revoked: set<string>)

  /** A token revoked before the lookup gets past it only if it straddles its expiry. */
  ghost predicate Fair(c: Crypto, l: Lookup) {
    && Validates(c, l.raw, l.validatedAt) && !IsMfa(c, l.raw)
    && (l.raw in l.seen ==> Straddles(c, l.raw, l.validatedAt, l.at))
  }

  /** A revoked token is on the list, or expired; the list holds nothing else. */
  ghost predicate Listed(c: Crypto, rows: map<string, int>, revoked: set<string>, now: int) {
    && (forall raw <- revoked :: ListedOrExpired(c, rows, raw, now))
    && (forall raw :: c.hash(raw) in rows ==> raw in revoked)
  }

  predicate ListedOrExpired(c: Crypto, rows: map<string, int>, raw: string, now: int) {
    Expiry(c, raw).Some? &&
    if c.hash(raw) in rows then rows[c.hash(raw)] == Expiry(c, raw).value else Expiry(c, raw).value < now
  }

  /** A pending refresh held its token at the first revocation iff that came after its lookup. */
  ghost predicate PendingSound(c: Crypto, pending: map<nat, string>, lookups: map<nat, Lookup>,
                               holders: map<string, set<nat>>) {
    && (forall id <- lookups :: Fair(c, lookups[id]))
    && (forall id <- pending ::
          id in lookups && pending[id] == lookups[id].raw && HeldIffLate(id, lookups[id], holders.Keys, holders))
  }

  /** What a lookup saw revoked is revoked, and a token's holders had looked it up before that. */
  ghost predicate HoldersSound(lookups: map<nat, Lookup>, holders: map<string, set<nat>>) {
    && (forall id <- lookups, raw <- lookups[id].seen :: raw in holders)
    && (forall raw <- holders, id <- holders[raw] ::
          id in lookups && lookups[id].raw == raw && raw !in lookups[id].seen)
  }

  /** So a token that was already revoked is exchanged by such a holder, or by a straddling refresh. */
  ghost predicate ExchangesSound(lookups: map<nat, Lookup>, exchanges: map<nat, Exchange>,
                                 holders: map<string, set<nat>>) {
    forall id <- exchanges ::
      id in lookups && exchanges[id].lookup == lookups[id] &&
      HeldIffLate(id, lookups[id], exchanges[id].revoked, holders)
  }

  /** The token was revoked after this lookup iff that found the request holding it. */
  predicate HeldIffLate(id: nat, l: Lookup, revoked: set<string>, holders: map<string, set<nat>>) {
    l.raw in revoked && l.raw !in l.seen <==> l.raw in holders && id in holders[l.raw]
  }

  /** INSERT ... ON CONFLICT DO NOTHING. */
  function Inserted(rows: map<string, int>, hash: string, expiresAt: int): map<string, int> {
    if hash in rows then rows else rows[hash := expiresAt]
  }

  /** The list with the token on it, if that has an expiry to be listed with. */
  function Entered(c: Crypto, rows: map<string, int>, raw: string): map<string, int> {
    if Expiry(c, raw).Some? then Inserted(rows, c.hash(raw), Expiry(c, raw).value) else rows
  }

  lemma {:induction false} AddListed(c: Crypto, rows: map<string, int>, revoked: set<string>, now: int,
                                     raw: string, at: int)
    requires CollisionFree(c) && Listed(c, rows, revoked, now) && now <= at && Expiry(c, raw).Some?
    ensures Listed(c, Inserted(rows, c.hash(raw), Expiry(c, raw).value), revoked + {raw}, at)
  {
    var rows' := Inserted(rows, c.hash(raw), Expiry(c, raw).value);
    forall other | other in revoked + {raw}
      ensures ListedOrExpired(c, rows', other, at)
    {
      assert c.hash(raw) in rows ==> raw in revoked;
      assert other in revoked ==> ListedOrExpired(c, rows, other, now);
    }
  }

  /** The first revocation of a token finds these refreshes holding it. */
  function NewHolders(holders: map<string, set<nat>>, pending: map<nat, string>, raw: string): map<string, set<nat>> {
    if raw in holders then holders else holders[raw := set id | id in pending && pending[id] == raw]
  }

  lemma {:induction false} AddKeeps(c: Crypto, pending: map<nat, string>, lookups: map<nat, Lookup>,
                                    exchanges: map<nat, Exchange>,
                                    holders: map<string, set<nat>>, raw: string)
    requires PendingSound(c, pending, lookups, holders) && forall id <- pending :: id !in exchanges
    requires ExchangesSound(lookups, exchanges, holders) && HoldersSound(lookups, holders)
    ensures PendingSound(c, pending, lookups, NewHolders(holders, pending, raw))
    ensures HoldersSound(lookups, NewHolders(holders, pending, raw))
    ensures ExchangesSound(lookups, exchanges, NewHolders(holders, pending, raw))
    ensures NewHolders(holders, pending, raw).Keys == holders.Keys + {raw}
  {
  }

  lemma {:induction false} AdvanceListed(c: Crypto, rows: map<string, int>, revoked: set<string>, now: int, at: int)
    requires Listed(c, rows, revoked, now) && now <= at
    ensures Listed(c, rows, revoked, at)
  {
    forall raw | raw in revoked
      ensures ListedOrExpired(c, rows, raw, at)
    {
      assert ListedOrExpired(c, rows, raw, now);
    }
  }

  lemma {:induction false} LookupKeeps(c: Crypto, pending: map<nat, string>, lookups: map<nat, Lookup>,
                                       exchanges: map<nat, Exchange>,
                                       holders: map<string, set<nat>>, id: nat, l: Lookup)
    requires PendingSound(c, pending, lookups, holders) && Fair(c, l) && l.seen == holders.Keys
    requires ExchangesSound(lookups, exchanges, holders) && HoldersSound(lookups, holders) && id !in lookups
    ensures PendingSound(c, pending[id := l.raw], lookups[id := l], holders)
    ensures ExchangesSound(lookups[id := l], exchanges, holders) && HoldersSound(lookups[id := l], holders)
  {
  }

  lemma {:induction false} FinishKeeps(c: Crypto, pending: map<nat, string>, lookups: map<nat, Lookup>,
                                       exchanges: map<nat, Exchange>,
                                       holders: map<string, set<nat>>, id: nat)
    requires PendingSound(c, pending, lookups, holders) && id in pending
    requires ExchangesSound(lookups, exchanges, holders)
    ensures PendingSound(c, pending - {id}, lookups, holders)
    ensures ExchangesSound(lookups, exchanges[id := Exchange(lookups[id], holders.Keys)], holders)
  {
  }

  class Auth {
    const crypto: Crypto
    var rows: map<string, int>               // token_blacklist: hash to expires_at
    var pending: map<nat, string>            // refreshes between lookup and finish, with their token
    ghost var holders: map<string, set<nat>> // every token ever added, with the refreshes that held it then
    ghost var lookups: map<nat, Lookup>      // every refresh that got past its lookup
    ghost var exchanges: map<nat, Exchange>  // every refresh that issued a token
    ghost var now: int

    ghost function Revoked(): set<string>
      reads this
    {
      holders.Keys
    }

    ghost predicate Valid()
      reads this
    {
      && CollisionFree(crypto) && Listed(crypto, rows, Revoked(), now)
      && PendingSound(crypto, pending, lookups, holders) && HoldersSound(lookups, holders)
      && ExchangesSound(lookups, exchanges, holders)
      && (forall id <- pending :: id !in exchanges)
    }

    constructor (crypto: Crypto, ghost now: int)
      requires CollisionFree(crypto)
      ensures Valid() && this.crypto == crypto && rows == map[] && pending == map[] && this.now == now
      ensures holders == map[] && lookups == map[] && exchanges == map[]
    {
      this.crypto := crypto;
      rows, pending := map[], map[];
      holders, lookups, exchanges, this.now := map[], map[], map[], now;
    }

    /**
     The exact exception: a token revoked before the lookup is exchanged only if the lookup straddled
     its expiry, and one revoked between lookup and exchange exactly by the requests that held it then.
     */
    lemma {:induction false} LateExchange(id: nat)
      requires Valid() && id in exchanges
      ensures var l := exchanges[id].lookup;
              && (l.raw in l.seen ==> Straddles(crypto, l.raw, l.validatedAt, l.at))
              && (l.raw in exchanges[id].revoked && l.raw !in l.seen <==> l.raw in holders && id in holders[l.raw])
    {
    }

    /** A request that is still to finish will do so for a token revoked since its lookup iff it is a holder. */
    lemma {:induction false} HolderExactly(id: nat)
      requires Valid() && id in pending
      ensures pending[id] == lookups[id].raw
      ensures pending[id] in Revoked() && pending[id] !in lookups[id].seen <==>
              pending[id] in holders && id in holders[pending[id]]
    {
    }

    /** Puts the token on the list; adding it again changes nothing. */
    method Add(raw: string, expiresAt: int, at: int)
      requires Valid() && now <= at && Expiry(crypto, raw) == Some(expiresAt)
      modifies this`rows, this`holders, this`now
      ensures Valid() && now == at && Revoked() == old(Revoked()) + {raw}
      ensures rows == Inserted(old(rows), crypto.hash(raw), expiresAt)
      ensures holders == NewHolders(old(holders), pending, raw)
    {
      AddListed(crypto, rows, Revoked(), now, raw, at);
      AddKeeps(crypto, pending, lookups, exchanges, holders, raw);
      now := at;
      rows := Inserted(rows, crypto.hash(raw), expiresAt);
      holders := NewHolders(holders, pending, raw);
    }

    /** DELETE ... WHERE expires_at < now(). */
    method Cleanup(at: int)
      requires Valid() && now <= at
      modifies this`rows, this`now
      ensures Valid() && now == at
      ensures rows == map h | h in old(rows) && old(rows)[h] >= at :: old(rows)[h]
    {
      now := at;
      rows := map h | h in rows && rows[h] >= at :: rows[h];
    }

    method IsBlacklisted(raw: string) returns (listed: bool)
      ensures listed == (crypto.hash(raw) in rows)
    {
      listed := crypto.hash(raw) in rows;
    }

    /** The acceptance decision of a request that found `raw` valid at `validatedAt`. */
    ghost predicate Accepts(raw: string, validatedAt: int, dbUp: bool)
      reads this
    {
      Validates(crypto, raw, validatedAt) && !IsMfa(crypto, raw) && dbUp && crypto.hash(raw) !in rows
    }

    /** Unless it straddles the expiry, a request is accepted exactly for a valid token never revoked. */
    lemma {:induction false} AcceptsExactly(raw: string, validatedAt: int, at: int, dbUp: bool)
      requires Valid() && now <= at && validatedAt <= at
      ensures !Straddles(crypto, raw, validatedAt, at) ==>
          (Accepts(raw, validatedAt, dbUp) <==>
           Validates(crypto, raw, validatedAt) && !IsMfa(crypto, raw) && dbUp && raw !in Revoked())
      ensures raw in Revoked() && Accepts(raw, validatedAt, dbUp) ==> Straddles(crypto, raw, validatedAt, at)
    {
    }

    /** A token from before the second factor opens nothing, whatever else holds. */
    lemma {:induction false} MfaNeverAccepted(raw: string, validatedAt: int, dbUp: bool)
      requires crypto.claims(raw).Some? && crypto.claims(raw).value.tokenType == "mfa"
      ensures !Accepts(raw, validatedAt, dbUp)
    {
    }

    /** Revocation is of the string: another string that carries the same claims stays accepted. */
    lemma {:induction false} OtherStringStays(raw: string, other: string, validatedAt: int)
      requires Valid() && raw in Revoked() && other !in Revoked() && crypto.claims(other) == crypto.claims(raw)
      requires Validates(crypto, raw, validatedAt) && !IsMfa(crypto, raw)
      ensures Accepts(other, validatedAt, true)
    {
    }

    /** JWTMiddleware: `at` is the time of the blacklist lookup. */
    method Middleware(header: string, validatedAt: int, at: int, dbUp: bool) returns (accepted: bool)
      requires Valid() && now <= at && validatedAt <= at
      ensures accepted <==> Bearer(header).Some? && Accepts(Bearer(header).value, validatedAt, dbUp)
      ensures accepted && Bearer(header).value in Revoked() ==> Straddles(crypto, Bearer(header).value, validatedAt, at)
    {
      var token := Bearer(header);
      if token.None? || !Validates(crypto, token.value, validatedAt) {
        return false;
      }
      if crypto.claims(token.value).value.tokenType == "mfa" {
        return false;
      }
      if !dbUp {
        return false;
      }
      var listed := IsBlacklisted(token.value);
      return !listed;
    }

    /** The first half of a refresh, up to the blacklist lookup at `at`. */
    method RefreshLookup(id: nat, header: string, validatedAt: int, at: int, dbUp: bool) returns (ok: bool)
      requires Valid() && now <= at && validatedAt <= at && id !in lookups
      modifies this`pending, this`lookups, this`now
      ensures Valid() && now == at
      ensures ok <==> |header| > 7 && Bearer(header).Some? && old(Accepts(Bearer(header).value, validatedAt, dbUp))
      ensures ok ==> pending == old(pending)[id := Bearer(header).value] &&
                     lookups == old(lookups)[id := Lookup(Bearer(header).value, Revoked(), validatedAt, at)]
      ensures !ok ==> pending == old(pending) && lookups == old(lookups)
    {
      var token := Bearer(header);
      AdvanceListed(crypto, rows, Revoked(), now, at);
      now := at;
      if |header| <= 7 || token.None? {
        return false;
      }
      var raw := token.value;
      if !Validates(crypto, raw, validatedAt) || !dbUp {
        return false;
      }
      var listed := IsBlacklisted(raw);
      if listed || crypto.claims(raw).value.tokenType == "mfa" {
        return false;
      }
      ghost var l := Lookup(raw, Revoked(), validatedAt, at);
      LookupKeeps(crypto, pending, lookups, exchanges, holders, id, l);
      lookups := lookups[id := l];
      pending := pending[id := raw];
      return true;
    }

    /** The request leaves; it counts as an exchange if it issues a token. */
    method Leave(id: nat, issues: bool, at: int)
      requires Valid() && now <= at && id in pending
      modifies this`pending, this`exchanges, this`now
      ensures Valid() && now == at && pending == old(pending) - {id}
      ensures exchanges == if issues then old(exchanges)[id := Exchange(lookups[id], Revoked())] else old(exchanges)
    {
      AdvanceListed(crypto, rows, Revoked(), now, at);
      FinishKeeps(crypto, pending, lookups, exchanges, holders, id);
      now := at;
      pending := pending - {id};
      exchanges := if issues then exchanges[id := Exchange(lookups[id], Revoked())] else exchanges;
    }

    /**
     The second half: the user is read again, a token is issued, and then the old one is added to the
     list, where a failing insert is only logged. The list is not consulted again.
     */
    method RefreshFinish(id: nat, userActive: Option<bool>, issuedAt: int, at: int, insertOk: bool)
      returns (issued: Option<Claims>)
      requires Valid() && now <= at && issuedAt <= at && id in pending
      modifies this`rows, this`pending, this`holders, this`exchanges, this`now
      ensures Valid() && now == at && pending == old(pending) - {id}
      ensures issued.Some? <==> userActive == Some(true)
      ensures issued.Some? ==>
          var user := crypto.claims(old(pending)[id]).value.userId;
          issued.value == Claims(user, "", Some(issuedAt + 86400), Some(issuedAt))
      ensures exchanges == if issued.Some? then old(exchanges)[id := Exchange(lookups[id], old(Revoked()))]
                           else old(exchanges)
      ensures Revoked() == if issued.Some? && insertOk && Expiry(crypto, old(pending)[id]).Some?
                           then old(Revoked()) + {old(pending)[id]} else old(Revoked())
      ensures holders == if issued.Some? && insertOk && Expiry(crypto, old(pending)[id]).Some?
                         then NewHolders(old(holders), pending, old(pending)[id]) else old(holders)
      ensures rows == if issued.Some? && insertOk then Entered(crypto, old(rows), old(pending)[id]) else old(rows)
    {
      var raw := pending[id];
      assert Fair(crypto, lookups[id]);
      Leave(id, userActive == Some(true), at);
      if userActive != Some(true) {
        return None;
      }
      var claims := crypto.claims(raw).value;
      issued := Some(GenerateClaims(Claims(claims.userId, "", None, None), issuedAt));
      if claims.expiresAt.Some? && insertOk {
        Add(raw, claims.expiresAt.value, at);
      }
    }

    /** Logout revokes every token that is still valid and has an expiry, if the insert works. */
    method Logout(header: string, validatedAt: int, at: int, insertOk: bool) returns (ok: bool)
      requires Valid() && now <= at && validatedAt <= at
      modifies this`rows, this`holders, this`now
      ensures Valid() && now == at
      ensures ok == (!Revokes(crypto, header, validatedAt) || insertOk)
      ensures Revoked() == if Revokes(crypto, header, validatedAt) && insertOk
                           then old(Revoked()) + {Bearer(header).value} else old(Revoked())
      ensures holders == if Revokes(crypto, header, validatedAt) && insertOk
                         then NewHolders(old(holders), pending, Bearer(header).value) else old(holders)
      ensures rows == if Revokes(crypto, header, validatedAt) && insertOk
                      then Entered(crypto, old(rows), Bearer(header).value) else old(rows)
    {
      now := at;
      var token := Bearer(header);
      if token.None? || token.value == "" {
        return true;
      }
      if !Validates(crypto, token.value, validatedAt) {
        return true;
      }
      var expiry := crypto.claims(token.value).value.expiresAt;
      if expiry.Some? {
        if !insertOk {
          return false;
        }
        Add(token.value, expiry.value, at);
      }
      return true;
    }
  }

  /** The exception is real: a request may validate before the expiry and look up after the cleanup. */
  method StraddlingRequest(crypto: Crypto, raw: string) returns (accepted: bool, auth: Auth)
    requires CollisionFree(crypto) && raw != "" && Expiry(crypto, raw).Some? && !IsMfa(crypto, raw)
    ensures accepted && raw in auth.Revoked()
  {
    var exp := crypto.claims(raw).value.expiresAt.value;
    auth := new Auth(crypto, exp - 2);
    assert Bearer("Bearer " + raw) == Some(raw);
    var _ := auth.Logout("Bearer " + raw, exp - 1, exp - 1, true);
    auth.Cleanup(exp + 1);
    assert crypto.hash(raw) !in auth.rows;
    accepted := auth.Middleware("Bearer " + raw, exp - 1, exp + 1, true);
  }

  /** Two refreshes of one token that have both passed their lookups. */
  method TwoLookups(crypto: Crypto, raw: string, at: int) returns (auth: Auth)
    requires CollisionFree(crypto) && raw != "" && Validates(crypto, raw, at) && !IsMfa(crypto, raw)
    ensures fresh(auth) && auth.Valid() && auth.crypto == crypto && auth.now == at
    ensures auth.pending == map[1 := raw, 2 := raw] && auth.Revoked() == {}
    ensures auth.lookups == map[1 := Lookup(raw, {}, at, at), 2 := Lookup(raw, {}, at, at)]
  {
    auth := new Auth(crypto, at);
    var header := "Bearer " + raw;
    assert |header| > 7 && Bearer(header) == Some(raw);
    var _ := auth.RefreshLookup(1, header, at, at, true);
    var _ := auth.RefreshLookup(2, header, at, at, true);
  }

  /** Both then issue a token, the second for a token that is revoked by then, with no expiry near. */
  method TwoRefreshes(crypto: Crypto, raw: string, at: int)
    returns (first: Option<Claims>, second: Option<Claims>, auth: Auth)
    requires CollisionFree(crypto) && raw != "" && !IsMfa(crypto, raw)
    requires Validates(crypto, raw, at) && Expiry(crypto, raw).Some?
    ensures first.Some? && second.Some? && auth.Valid()
    ensures 2 in auth.exchanges && raw in auth.exchanges[2].revoked
    ensures auth.exchanges[2].lookup == Lookup(raw, {}, at, at) && !Straddles(crypto, raw, at, at)
  {
    auth := TwoLookups(crypto, raw, at);
    first := auth.RefreshFinish(1, Some(true), at, at, true);
    second := auth.RefreshFinish(2, Some(true), at, at, true);
  }
}
