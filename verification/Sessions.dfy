/**
 Sessions: a store for fast lookups, in memory or in Redis, in front of the sessions table. The
 manager writes both, validates from the store first and refills it from the table.
 */
module Sessions {
  import opened Common

  const DAY := 24 * 60 * 60

  datatype Session = Session(
    id: string, userId: string, ipAddress: string, userAgent: string, createdAt: int, expiresAt: int)

  /** The per-user index of session ids, a set with an expiry of its own. */
  datatype Index = Index(members: set<string>, expires: int)

  /**
   The two stores. A Redis session key is set to expire with its session, so the session's own
   expiry tells when the key is gone.
   */
  datatype Store =
    | Memory(sessions: map<string, Session>)
    | Redis(keys: map<string, Session>, index: map<string, Index>)

  // ---- The store operations ----------------------------------------------------

  /** The session the store answers with. */
  function Get(st: Store, id: string, now: int): Option<Session> {
    match st
    case Memory(sessions) =>
      if id in sessions && now <= sessions[id].expiresAt then Some(sessions[id]) else None
    case Redis(keys, _) =>
      if id in keys && now < keys[id].expiresAt then Some(keys[id]) else None
  }

  predicate Keeps(st: Store, id: string) {
    match st
    case Memory(sessions) => id in sessions
    case Redis(keys, _) => id in keys
  }

  /** A lookup drops a session that it finds expired. */
  function AfterGet(st: Store, id: string, now: int): Store {
    if Get(st, id, now).Some? then st
    else
      match st
      case Memory(sessions) => Memory(sessions - {id})
      case Redis(keys, index) => Redis(keys - {id}, index)
  }

  function LiveMembers(index: map<string, Index>, user: string, now: int): set<string> {
    if user in index && now < index[user].expires then index[user].members else {}
  }

  /** Stores a session; Redis refuses one that has expired, and gives the index another day. */
  function Create(st: Store, s: Session, now: int): Store {
    match st
    case Memory(sessions) => Memory(sessions[s.id := s])
    case Redis(keys, index) =>
      if s.expiresAt <= now then st
      else
        Redis(keys[s.id := s],
              index[s.userId := Index(LiveMembers(index, s.userId, now) + {s.id}, now + DAY)])
  }

  function Delete(st: Store, id: string, now: int): Store {
    match st
    case Memory(sessions) => Memory(sessions - {id})
    case Redis(keys, index) =>
      var found := Get(st, id, now);
      var user := if found.Some? then found.value.userId else "";
      Redis(keys - {id},
            if found.Some? && user in index
            then index[user := index[user].(members := index[user].members - {id})] else index)
  }

  function DeleteByUser(st: Store, user: string, now: int): Store {
    match st
    case Memory(sessions) => Memory(map id | id in sessions && sessions[id].userId != user :: sessions[id])
    case Redis(keys, index) => Redis(keys - LiveMembers(index, user, now), index - {user})
  }

  /** How long a stored session is answered: in memory up to and including its expiry, in Redis before it. */
  lemma {:induction false} StoredUntilExpiry(st: Store, s: Session, now: int, t: int)
    requires now < s.expiresAt
    ensures Get(Create(st, s, now), s.id, t) == Some(s) <==> if st.Memory? then t <= s.expiresAt else t < s.expiresAt
    ensures Get(Create(st, s, now), s.id, t).Some? ==> Get(Create(st, s, now), s.id, t) == Some(s)
    ensures st.Redis? ==> Create(st, s, now).index[s.userId].expires == now + 86400
  {
  }

  // ---- The cache invariant -----------------------------------------------------

  type Table = map<string, Session>

  /** What the store would still answer with is in the table. */
  ghost predicate Coherent(st: Store, db: Table, now: int) {
    forall id :: Get(st, id, now).Some? ==> id in db && Get(st, id, now).value == db[id]
  }

  /** The index still lists the session, and outlives it. */
  predicate Indexed(st: Store, s: Session)
    requires st.Redis?
  {
    s.userId in st.index && s.id in st.index[s.userId].members && s.expiresAt <= st.index[s.userId].expires
  }

  /** Every live Redis session is in its user's index. */
  ghost predicate AllIndexed(st: Store, now: int) {
    st.Redis? ==>
      forall id <- st.keys :: now < st.keys[id].expiresAt ==> st.keys[id].id == id && Indexed(st, st.keys[id])
  }

  ghost predicate Rows(db: Table, now: int, ttl: int) {
    forall id <- db :: db[id].id == id && db[id].expiresAt <= now + ttl
  }

  /** The owners of the ids: rows, sessions without a row and index entries agree with them. */
  ghost predicate Owned(st: Store, known: Table, owner: map<string, string>) {
    && (forall id <- known :: id in owner && owner[id] == known[id].userId)
    && (st.Redis? ==> forall u <- st.index, id <- st.index[u].members :: id in owner && owner[id] == u)
  }

  /** Sessions without a row live in the store alone, until they expire. */
  ghost predicate Stored(st: Store, unsaved: Table, now: int) {
    forall id <- unsaved :: now < unsaved[id].expiresAt ==> Get(st, id, now) == Some(unsaved[id])
  }

  /** The table and the sessions without a row, seen as one. */
  ghost predicate Sound(st: Store, db: Table, unsaved: Table, owner: map<string, string>, now: int, ttl: int) {
    && Coherent(st, db + unsaved, now) && AllIndexed(st, now) && Rows(db + unsaved, now, ttl)
    && (forall id <- unsaved :: id !in db)
    && Owned(st, db + unsaved, owner) && Stored(st, unsaved, now)
  }

  class Manager {
    var store: Store
    var db: Table                           // the sessions table
    const ttl: int
    ghost var unsaved: Table                // sessions whose row could not be written
    ghost var owner: map<string, string>    // the user of every id ever drawn
    ghost var now: int

    /** All sessions that were created and not revoked. */
    ghost function Known(): Table
      reads this
    {
      db + unsaved
    }

    ghost predicate Valid()
      reads this
    {
      Sound(store, db, unsaved, owner, now, ttl) && (store.Redis? ==> ttl <= DAY)
    }

    constructor (store: Store, ttl: int, ghost now: int)
      requires store == Memory(map[]) || (store == Redis(map[], map[]) && ttl <= DAY)
      ensures Valid() && this.store == store && this.ttl == ttl && this.now == now
      ensures db == map[] && unsaved == map[] && owner == map[]
    {
      this.store, this.ttl, db := store, ttl, map[];
      unsaved, owner, this.now := map[], map[], now;
    }

    /**
     A new session under an id that was never drawn before; Redis takes none without a lifetime, and
     may not be there to take it, while a row that cannot be written is only logged.
     */
    method CreateSession(id: string, userId: string, ipAddress: string, userAgent: string, at: int,
                         redisUp: bool, written: bool)
      returns (r: Option<Session>)
      requires Valid() && now <= at && id !in owner
      modifies this
      ensures Valid() && now == at
      ensures r.None? <==> old(store).Redis? && (ttl <= 0 || !redisUp)
      ensures r.Some? ==> r.value == Session(id, userId, ipAddress, userAgent, at, at + ttl)
      ensures db == if r.Some? && written then old(db)[id := r.value] else old(db)
      ensures unsaved == if r.Some? && !written then old(unsaved)[id := r.value] else old(unsaved)
      ensures owner == if r.Some? then old(owner)[id := userId] else old(owner)
      ensures r.Some? && 0 < ttl ==> Get(store, id, at) == r
      ensures r.None? ==> store == old(store)
      ensures forall other :: other != id ==> Get(store, other, at) == Get(old(store), other, at)
    {
      var s := Session(id, userId, ipAddress, userAgent, at, at + ttl);
      Later(store, db, unsaved, owner, now, at, ttl);
      now := at;
      if store.Redis? && (s.expiresAt - at <= 0 || !redisUp) {
        return None;
      }
      CreateSound(store, db, unsaved, owner, s, at, ttl, written);
      forall other
        ensures other != id ==> Get(Create(store, s, at), other, at) == Get(store, other, at)
      {
        CreateGets(store, s, at, other);
      }
      store := Create(store, s, at);
      owner := owner[id := userId];
      unsaved := if written then unsaved else unsaved[id := s];
      if written {
        db := db[id := s];
      }
      return Some(s);
    }

    /** The store's lookup, which drops what has expired. */
    method FromStore(id: string, at: int) returns (r: Option<Session>)
      requires Valid() && now <= at
      modifies this`store, this`now
      ensures Valid() && now == at && r == Get(old(store), id, at) && store == AfterGet(old(store), id, at)
    {
      r := Get(store, id, at);
      Later(store, db, unsaved, owner, now, at, ttl);
      AfterGetKeeps(store, Known(), unsaved, owner, id, at);
      store := AfterGet(store, id, at);
      now := at;
    }

    /**
     Succeeds iff an unexpired session was created and not revoked; only at the expiry instant, and
     when the table cannot be read, does it count whether the store has it. Refilling the store may
     fail, without consequence for this call.
     */
    method ValidateSession(id: string, at: int, dbUp: bool, refills: bool) returns (r: Option<Session>)
      requires Valid() && now <= at
      modifies this`store, this`now
      ensures Valid() && now == at
      ensures old(Get(store, id, at)).Some? ==> r.Some?
      ensures old(Get(store, id, at)).None? ==> (r.Some? <==> dbUp && id in db && at < db[id].expiresAt)
      ensures dbUp || id in unsaved ==>
          (r.Some? <==> id in Known() && (at < Known()[id].expiresAt ||
                                          (at == Known()[id].expiresAt && old(Get(store, id, at)).Some?)))
      ensures r.Some? ==> id in Known() && r.value == Known()[id]
      ensures r.Some? && (refills || old(Get(store, id, at)).Some?) ==> Get(store, id, at) == r
      ensures r.None? ==> !Keeps(store, id)
    {
      r := FromStore(id, at);
      if r.Some? {
        return;
      }
      if dbUp && id in db && at < db[id].expiresAt {
        r := Some(db[id]);
        if refills {
          RefillSound(store, db, unsaved, owner, db[id], at, ttl);
          store := Create(store, db[id], at);
        }
      }
    }

    /** The store forgets the session at once; if the row stays, so does the session, and the caller is told. */
    method RevokeSession(id: string, at: int, dbUp: bool) returns (ok: bool)
      requires Valid() && now <= at
      modifies this`store, this`db, this`unsaved, this`now
      ensures Valid() && now == at && ok == dbUp && unsaved == old(unsaved) - {id}
      ensures db == if dbUp then old(db) - {id} else old(db)
      ensures !Keeps(store, id)
      ensures forall other :: other != id ==> Get(store, other, at) == Get(old(store), other, at)
    {
      Later(store, db, unsaved, owner, now, at, ttl);
      DeleteSound(store, db, unsaved, owner, id, at, ttl, dbUp);
      now := at;
      forall other
        ensures Get(Delete(store, id, at), other, at) == if other == id then None else Get(store, other, at)
      {
        DeleteGets(store, id, at, other);
      }
      store, unsaved := Delete(store, id, at), unsaved - {id};
      if dbUp {
        db := db - {id};
      }
      return dbUp;
    }

    /** The store forgets the user's sessions, and only those, at once; the rest is as for a single one. */
    method RevokeAllSessions(userId: string, at: int, dbUp: bool) returns (ok: bool)
      requires Valid() && now <= at
      modifies this`store, this`db, this`unsaved, this`now
      ensures Valid() && now == at && ok == dbUp && unsaved == Without(old(unsaved), userId)
      ensures db == if dbUp then Without(old(db), userId) else old(db)
      ensures forall id :: Get(store, id, at) ==
                           if id in old(Known()) && old(Known())[id].userId == userId then None
                           else Get(old(store), id, at)
    {
      Later(store, db, unsaved, owner, now, at, ttl);
      DeleteByUserSound(store, db, unsaved, owner, userId, at, ttl, dbUp);
      now := at;
      forall id
        ensures Get(DeleteByUser(store, userId, at), id, at)
                == if id in Known() && Known()[id].userId == userId then None else Get(store, id, at)
      {
        DeleteByUserGets(store, Known(), owner, userId, at, id);
      }
      store, unsaved := DeleteByUser(store, userId, at), Without(unsaved, userId);
      if dbUp {
        db := Without(db, userId);
      }
      return dbUp;
    }
  }

  // ---- What the operations keep ------------------------------------------------

  lemma {:induction false} Later(st: Store, db: Table, unsaved: Table, owner: map<string, string>,
                                 now: int, at: int, ttl: int)
    requires Sound(st, db, unsaved, owner, now, ttl) && now <= at
    ensures Sound(st, db, unsaved, owner, at, ttl)
  {
  }

  lemma {:induction false} AfterGetKeeps(st: Store, known: Table, unsaved: Table, owner: map<string, string>,
                                         id: string, at: int)
    requires Coherent(st, known, at) && AllIndexed(st, at) && Owned(st, known, owner) && Stored(st, unsaved, at)
    ensures var st' := AfterGet(st, id, at);
            Coherent(st', known, at) && AllIndexed(st', at) && Owned(st', known, owner) && Stored(st', unsaved, at)
  {
    var st' := AfterGet(st, id, at);
    assert st.Redis? ==> st'.Redis? && st'.index == st.index;
    assert forall other :: Get(st', other, at) == Get(st, other, at);
  }

  /** Storing a known session that lives at most a day: the index is renewed for longer than that. */
  lemma {:induction false} CreateKeeps(st: Store, known: Table, s: Session, at: int, ttl: int)
    requires s.id in known && known[s.id] == s && s.expiresAt <= at + ttl
    requires forall id :: id != s.id && Get(st, id, at).Some? ==> id in known && Get(st, id, at).value == known[id]
    requires forall id <- known :: id != s.id ==> known[id].id == id && known[id].expiresAt <= at + ttl
    requires AllIndexed(st, at) && (st.Redis? ==> ttl <= DAY && at < s.expiresAt)
    ensures Coherent(Create(st, s, at), known, at) && AllIndexed(Create(st, s, at), at) && Rows(known, at, ttl)
  {
    var st' := Create(st, s, at);
    forall id | Get(st', id, at).Some?
      ensures id in known && Get(st', id, at).value == known[id]
    {
      if id != s.id {
        assert Get(st, id, at) == Get(st', id, at);
      }
    }
    if st'.Redis? {
      forall id | id in st'.keys && at < st'.keys[id].expiresAt
        ensures st'.keys[id].id == id && Indexed(st', st'.keys[id])
      {
        if id != s.id {
          assert id in st.keys && Indexed(st, st.keys[id]) && st.keys[id].id == id;
          assert Get(st, id, at) == Some(known[id]);
        }
      }
    }
  }

  lemma {:induction false} CreateGets(st: Store, s: Session, at: int, id: string)
    ensures id != s.id ==> Get(Create(st, s, at), id, at) == Get(st, id, at)
    ensures at < s.expiresAt ==> Get(Create(st, s, at), s.id, at) == Some(s)
  {
  }

  lemma {:induction false} CreateIndexOwned(st: Store, known: Table, owner: map<string, string>, s: Session, at: int)
    requires Owned(st, known, owner) && s.id in owner && owner[s.id] == s.userId
    ensures Owned(Create(st, s, at), known, owner)
  {
  }

  /** A new session disturbs no other one. */
  lemma {:induction false} CreateKeepsOthers(st: Store, known: Table, unsaved: Table, owner: map<string, string>,
                                             s: Session, at: int)
    requires Owned(st, known, owner) && Stored(st, unsaved, at) && s.id !in owner
    requires forall id <- unsaved :: id in known
    requires st.Redis? ==> at < s.expiresAt
    ensures Owned(Create(st, s, at), known[s.id := s], owner[s.id := s.userId])
    ensures Stored(Create(st, s, at), unsaved, at) && Stored(Create(st, s, at), unsaved[s.id := s], at)
  {
    CreateIndexOwned(st, known[s.id := s], owner[s.id := s.userId], s, at);
    assert forall id :: id != s.id ==> Get(Create(st, s, at), id, at) == Get(st, id, at);
  }

  lemma {:induction false} RefillKeepsOthers(st: Store, known: Table, unsaved: Table, owner: map<string, string>,
                                             s: Session, at: int)
    requires Owned(st, known, owner) && Stored(st, unsaved, at)
    requires s.id in known && known[s.id] == s && s.id !in unsaved
    ensures Owned(Create(st, s, at), known, owner) && Stored(Create(st, s, at), unsaved, at)
  {
    CreateIndexOwned(st, known, owner, s, at);
    assert forall id :: id != s.id ==> Get(Create(st, s, at), id, at) == Get(st, id, at);
  }

  lemma {:induction false} CreateSound(st: Store, db: Table, unsaved: Table, owner: map<string, string>,
                                       s: Session, at: int, ttl: int, written: bool)
    requires Sound(st, db, unsaved, owner, at, ttl) && s.id !in owner && s.expiresAt == at + ttl
    requires st.Redis? ==> ttl <= DAY && at < s.expiresAt
    ensures Sound(Create(st, s, at), if written then db[s.id := s] else db,
                  if written then unsaved else unsaved[s.id := s], owner[s.id := s.userId], at, ttl)
  {
    var known := db + unsaved;
    var db' := if written then db[s.id := s] else db;
    var unsaved' := if written then unsaved else unsaved[s.id := s];
    assert s.id !in known;
    CreateKeeps(st, known[s.id := s], s, at, ttl);
    CreateKeepsOthers(st, known, unsaved, owner, s, at);
    assert db' + unsaved' == known[s.id := s];
    SoundFrom(Create(st, s, at), db', unsaved', known[s.id := s], owner[s.id := s.userId], at, ttl);
  }

  lemma {:induction false} SoundFrom(st: Store, db: Table, unsaved: Table, known: Table, owner: map<string, string>,
                                     at: int, ttl: int)
    requires Coherent(st, known, at) && AllIndexed(st, at) && Rows(known, at, ttl) && Owned(st, known, owner)
    requires Stored(st, unsaved, at) && (forall id <- unsaved :: id !in db) && db + unsaved == known
    ensures Sound(st, db, unsaved, owner, at, ttl)
  {
  }

  lemma {:induction false} RefillSound(st: Store, db: Table, unsaved: Table, owner: map<string, string>,
                                       s: Session, at: int, ttl: int)
    requires Sound(st, db, unsaved, owner, at, ttl) && s.id in db && db[s.id] == s
    requires st.Redis? ==> ttl <= DAY && at < s.expiresAt
    ensures Sound(Create(st, s, at), db, unsaved, owner, at, ttl)
  {
    CreateKeeps(st, db + unsaved, s, at, ttl);
    RefillKeepsOthers(st, db + unsaved, unsaved, owner, s, at);
  }

  predicate Part(t: Table, of: Table) {
    forall id <- t :: id in of && t[id] == of[id]
  }

  /** Forgetting sessions in the store and, or not, in the table: what is left is sound. */
  lemma {:induction false} Shrunk(st: Store, db: Table, unsaved: Table, db': Table, unsaved': Table,
                                  owner: map<string, string>, at: int, ttl: int)
    requires Rows(db + unsaved, at, ttl) && Owned(st, db + unsaved, owner) && AllIndexed(st, at)
    requires (forall id <- unsaved :: id !in db) && Part(db', db) && Part(unsaved', unsaved)
    requires Coherent(st, db' + unsaved', at) && Stored(st, unsaved', at)
    ensures Sound(st, db', unsaved', owner, at, ttl)
  {
    assert Part(db' + unsaved', db + unsaved);
  }

  lemma {:induction false} MoreRows(st: Store, known: Table, more: Table, at: int)
    requires Coherent(st, known, at) && Part(known, more)
    ensures Coherent(st, more, at)
  {
  }

  lemma {:induction false} DeleteGets(st: Store, id: string, at: int, other: string)
    ensures Get(Delete(st, id, at), other, at) == if other == id then None else Get(st, other, at)
  {
  }

  lemma {:induction false} DeleteIndexed(st: Store, known: Table, owner: map<string, string>, id: string, at: int)
    requires AllIndexed(st, at) && Owned(st, known, owner)
    ensures AllIndexed(Delete(st, id, at), at) && Owned(Delete(st, id, at), known, owner)
  {
  }

  lemma {:induction false} DeleteKeeps(st: Store, known: Table, unsaved: Table, id: string, at: int)
    requires Coherent(st, known, at) && Stored(st, unsaved, at)
    ensures Coherent(Delete(st, id, at), known - {id}, at) && Stored(Delete(st, id, at), unsaved - {id}, at)
  {
    forall other
      ensures Get(Delete(st, id, at), other, at) == if other == id then None else Get(st, other, at)
    {
      DeleteGets(st, id, at, other);
    }
  }

  lemma {:induction false} DeleteSound(st: Store, db: Table, unsaved: Table, owner: map<string, string>,
                                       id: string, at: int, ttl: int, dbUp: bool)
    requires Sound(st, db, unsaved, owner, at, ttl)
    ensures Sound(Delete(st, id, at), if dbUp then db - {id} else db, unsaved - {id}, owner, at, ttl)
  {
    var st', rest := Delete(st, id, at), unsaved - {id};
    var db' := if dbUp then db - {id} else db;
    DeleteKeeps(st, db + unsaved, unsaved, id, at);
    DeleteIndexed(st, db + unsaved, owner, id, at);
    assert Part((db + unsaved) - {id}, db' + rest);
    MoreRows(st', (db + unsaved) - {id}, db' + rest, at);
    Shrunk(st', db, unsaved, db', rest, owner, at, ttl);
  }

  /** The rows of the other users. */
  function Without(t: Table, user: string): Table {
    map id | id in t && t[id].userId != user :: t[id]
  }

  /** All live sessions of the user are found through the index, and no other ones. */
  lemma {:induction false} DeleteByUserGets(st: Store, known: Table, owner: map<string, string>,
                                            user: string, at: int, id: string)
    requires Coherent(st, known, at) && AllIndexed(st, at) && Owned(st, known, owner)
    ensures Get(DeleteByUser(st, user, at), id, at)
            == if id in known && known[id].userId == user then None else Get(st, id, at)
  {
  }

  lemma {:induction false} DeleteByUserKeeps(st: Store, known: Table, unsaved: Table, owner: map<string, string>,
                                             user: string, at: int)
    requires Coherent(st, known, at) && AllIndexed(st, at) && Owned(st, known, owner) && Stored(st, unsaved, at)
    requires Part(unsaved, known)
    ensures var st' := DeleteByUser(st, user, at);
            && Coherent(st', Without(known, user), at) && AllIndexed(st', at)
            && Owned(st', known, owner) && Stored(st', Without(unsaved, user), at)
  {
    forall id
      ensures Get(DeleteByUser(st, user, at), id, at)
              == if id in known && known[id].userId == user then None else Get(st, id, at)
    {
      DeleteByUserGets(st, known, owner, user, at, id);
    }
    DeleteByUserIndexed(st, known, owner, user, at);
  }

  lemma {:induction false} DeleteByUserIndexed(st: Store, known: Table, owner: map<string, string>,
                                               user: string, at: int)
    requires Coherent(st, known, at) && AllIndexed(st, at) && Owned(st, known, owner)
    ensures AllIndexed(DeleteByUser(st, user, at), at) && Owned(DeleteByUser(st, user, at), known, owner)
  {
  }

  lemma {:induction false} DeleteByUserSound(st: Store, db: Table, unsaved: Table, owner: map<string, string>,
                                             user: string, at: int, ttl: int, dbUp: bool)
    requires Sound(st, db, unsaved, owner, at, ttl)
    ensures Sound(DeleteByUser(st, user, at), if dbUp then Without(db, user) else db, Without(unsaved, user),
                  owner, at, ttl)
  {
    var st', rest := DeleteByUser(st, user, at), Without(unsaved, user);
    var db' := if dbUp then Without(db, user) else db;
    DeleteByUserKeeps(st, db + unsaved, unsaved, owner, user, at);
    assert Part(Without(db + unsaved, user), db' + rest);
    MoreRows(st', Without(db + unsaved, user), db' + rest, at);
    Shrunk(st', db, unsaved, db', rest, owner, at, ttl);
  }

  /** With a longer lifetime the index goes first: a revoked session stays in Redis and is still answered. */
  lemma {:induction false} LongLivedSessionSurvives(ttl: int, id: string, user: string)
    requires ttl > 86400
    ensures var s := Session(id, user, "", "", 0, ttl);
            var created := Create(Redis(map[], map[]), s, 0);
            Get(DeleteByUser(created, user, 86400), id, 86400) == Some(s)
  {
  }
}
