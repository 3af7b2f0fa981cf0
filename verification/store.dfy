/**
 * The mirrored-block store (`blockState`): a cache in front of a key-value
 * database, with negative caching, and the last-accepted pointer held in
 * memory and persisted under a fixed one-byte key.
 */
module Store {
  import opened Types
  import opened Codec

  /** `lastAcceptedKey`: the single byte `lastAcceptedByte` (0). */
  const LastAcceptedKey: Bytes := [0]

  /** `blockCacheSize`; the eviction policy itself is modelled by `Evict`. */
  const BlockCacheSize: nat := 8192

  /** Everything a block read depends on. */
  datatype StoreView = StoreView(
    cache: map<ID, Option<Block>>,
    db: map<Bytes, Bytes>,
    faults: set<Bytes>,
    hash: Bytes -> ID)

  /** The database's `Get`: keys in `faults` fail with an I/O error. */
  function ReadDb(db: map<Bytes, Bytes>, faults: set<Bytes>, key: Bytes): (r: Result<Bytes>)
    ensures r.Ok? <==> key !in faults && key in db
    ensures r.Err? && key !in faults ==> r.error == NotFound
  {
    if key in faults then Err(DbFailure)
    else if key in db then Ok(db[key])
    else Err(NotFound)
  }

  /** A block read that bypasses the cache. */
  function DbLookup(v: StoreView, id: ID): (r: Result<Block>)
    ensures id in v.faults ==> r == Err(DbFailure)
    ensures id !in v.faults && id !in v.db ==> r == Err(NotFound)
    ensures r.Ok? ==> id in v.db && r.value.id == v.hash(r.value.bytes)
  {
    match ReadDb(v.db, v.faults, id)
    case Err(e) => Err(e)
    case Ok(stored) => DecodeStored(stored, v.hash)
  }

  /** What `GetBlock(id)` returns in the state `v`. */
  function Lookup(v: StoreView, id: ID): (r: Result<Block>)
    ensures id in v.cache ==> (r.Ok? <==> v.cache[id].Some?)
    ensures id in v.cache && r.Ok? ==> r.value == v.cache[id].value
    ensures id in v.cache && r.Err? ==> r.error == NotFound
    ensures id !in v.cache ==> r == DbLookup(v, id)
  {
    if id in v.cache then
      match v.cache[id]
      case Some(b) => Ok(b)
      case None => Err(NotFound)
    else DbLookup(v, id)
  }

  /** Two states that answer every block read alike. */
  ghost predicate SameLookups(v: StoreView, w: StoreView) {
    forall id: ID :: Lookup(v, id) == Lookup(w, id)
  }

  /** Every cache entry agrees with what the database would say. */
  ghost predicate Coherent(v: StoreView) {
    forall id: ID {:trigger id in v.cache} :: id in v.cache ==> Lookup(v, id) == DbLookup(v, id)
  }

  function Evicted(v: StoreView, id: ID): StoreView {
    v.(cache := v.cache - {id})
  }

  /** Dropping an entry from a coherent cache changes no answer and keeps the cache coherent. */
  lemma EvictionIsTransparent(v: StoreView, id: ID)
    requires Coherent(v)
    ensures SameLookups(v, Evicted(v, id)) && Coherent(Evicted(v, id))
  {
    forall k: ID ensures Lookup(v, k) == Lookup(Evicted(v, id), k) {
      if k == id && id in v.cache {
        assert Lookup(v, k) == DbLookup(v, k);
      }
    }
  }

  /** A block put without a fault can be read back even after it has left the cache. */
  lemma PutSurvivesEviction(v: StoreView, b: Block, stored: Bytes)
    requires Initialized(b, v.hash)
    requires EncodeWrapper(Wrapper(b.bytes, b.status)) == Ok(stored)
    requires b.id !in v.faults
    ensures Lookup(Evicted(v.(cache := v.cache[b.id := Some(b)], db := v.db[b.id := stored]), b.id), b.id) == Ok(b)
  {
    StoredRoundTrip(b, v.hash);
  }

  /** A cached block is the answer without the database. */
  lemma CachedAnswer(v: StoreView, id: ID)
    requires id in v.cache && v.cache[id].Some?
    ensures Lookup(v, id) == Ok(v.cache[id].value)
  {
  }

  /** Writing a block to both the cache and the database keeps a coherent cache coherent. */
  lemma PutKeepsCoherent(v: StoreView, b: Block, stored: Bytes)
    requires Coherent(v) && Initialized(b, v.hash)
    requires EncodeWrapper(Wrapper(b.bytes, b.status)) == Ok(stored)
    requires b.id !in v.faults
    ensures Coherent(v.(cache := v.cache[b.id := Some(b)], db := v.db[b.id := stored]))
  {
    var w := v.(cache := v.cache[b.id := Some(b)], db := v.db[b.id := stored]);
    forall id: ID | id in w.cache ensures Lookup(w, id) == DbLookup(w, id) {
      if id == b.id {
        StoredRoundTrip(b, v.hash);
      } else {
        assert Lookup(w, id) == Lookup(v, id);
        assert ReadDb(w.db, w.faults, id) == ReadDb(v.db, v.faults, id);
      }
    }
  }

  /** The persisted last-accepted pointer, read through `ids.ToID`. */
  function StoredLastAccepted(db: map<Bytes, Bytes>, faults: set<Bytes>): (r: Result<ID>)
    ensures LastAcceptedKey in faults ==> r == Err(DbFailure)
    ensures LastAcceptedKey !in faults && LastAcceptedKey !in db ==> r == Err(NotFound)
    ensures LastAcceptedKey !in faults && LastAcceptedKey in db ==>
      r == if |db[LastAcceptedKey]| == 32 then Ok(db[LastAcceptedKey]) else Err(BadIdLength)
  {
    match ReadDb(db, faults, LastAcceptedKey)
    case Err(e) => Err(e)
    case Ok(raw) => if |raw| == 32 then Ok(raw) else Err(BadIdLength)
  }

  /** No block ID is the last-accepted key, so block writes never touch the pointer. */
  lemma LastAcceptedKeyIsNoID(id: ID)
    ensures id != LastAcceptedKey
  {
    assert |id| != |LastAcceptedKey|;
  }

  /** Writing or deleting a block leaves the persisted pointer as it was. */
  lemma BlockWritesKeepPointer(db: map<Bytes, Bytes>, faults: set<Bytes>, id: ID, stored: Bytes)
    ensures StoredLastAccepted(db[id := stored], faults) == StoredLastAccepted(db, faults)
    ensures StoredLastAccepted(db - {id}, faults) == StoredLastAccepted(db, faults)
  {
    LastAcceptedKeyIsNoID(id);
    assert ReadDb(db[id := stored], faults, LastAcceptedKey) == ReadDb(db, faults, LastAcceptedKey);
    assert ReadDb(db - {id}, faults, LastAcceptedKey) == ReadDb(db, faults, LastAcceptedKey);
  }

  class BlockState {
    /** `blkCache`: `None` is the "known absent" marker. */
    var cache: map<ID, Option<Block>>
    /** `blockDB`. */
    var db: map<Bytes, Bytes>
    /** Keys on which the database fails (its own I/O errors); no operation changes them. */
    var faults: set<Bytes>
    /** Number of database reads issued so far. */
    var dbReads: nat
    var lastAccepted: ID
    /** `IsInitialized` / `SetInitialized` of the enclosing state. */
    var initialized: bool
    /** The content hash that `Initialize` derives block IDs with. */
    const hash: Bytes -> ID

    function View(): StoreView
      reads this
    {
      StoreView(cache, db, faults, hash)
    }

    /** What `GetLastAccepted` returns in the current state. */
    function LastAcceptedView(): (r: Result<ID>)
      reads this
      ensures lastAccepted != EmptyID ==> r == Ok(lastAccepted)
      ensures lastAccepted == EmptyID ==> r == StoredLastAccepted(db, faults)
    {
      if lastAccepted != EmptyID then Ok(lastAccepted) else StoredLastAccepted(db, faults)
    }

    /** `NewBlockState`: an empty cache over the given database. */
    constructor (hash: Bytes -> ID, db: map<Bytes, Bytes>, faults: set<Bytes>)
      ensures this.hash == hash && this.db == db && this.faults == faults
      ensures cache == map[] && lastAccepted == EmptyID && dbReads == 0 && !initialized
      ensures Coherent(View())
    {
      this.hash := hash;
      this.db := db;
      this.faults := faults;
      cache := map[];
      lastAccepted := EmptyID;
      dbReads := 0;
      initialized := false;
    }

    method DbGet(key: Bytes) returns (r: Result<Bytes>)
      modifies this`dbReads
      ensures r == ReadDb(db, faults, key)
      ensures dbReads == old(dbReads) + 1
    {
      dbReads := dbReads + 1;
      r := ReadDb(db, faults, key);
    }

    method DbPut(key: Bytes, value: Bytes) returns (err: Option<Error>)
      modifies this`db
      ensures key in faults ==> err == Some(DbFailure) && db == old(db)
      ensures key !in faults ==> err == None && db == old(db)[key := value]
    {
      if key in faults {
        err := Some(DbFailure);
      } else {
        db := db[key := value];
        err := None;
      }
    }

    method DbDelete(key: Bytes) returns (err: Option<Error>)
      modifies this`db
      ensures key in faults ==> err == Some(DbFailure) && db == old(db)
      ensures key !in faults ==> err == None && db == old(db) - {key}
    {
      if key in faults {
        err := Some(DbFailure);
      } else {
        db := db - {key};
        err := None;
      }
    }

    /**
     * `GetBlock`: a cache hit answers without the database (a `None` entry
     * answers NotFound); a miss reads the database, caches `None` on
     * NotFound, caches the decoded block on success and caches nothing on any
     * other error. Whatever happens, every later read answers as before.
     */
    method GetBlock(id: ID) returns (r: Result<Block>)
      modifies this`cache, this`dbReads
      ensures r == Lookup(old(View()), id)
      ensures SameLookups(old(View()), View())
      ensures old(Coherent(View())) ==> Coherent(View())
      ensures id in old(cache) ==> cache == old(cache) && dbReads == old(dbReads)
      ensures id !in old(cache) ==> dbReads == old(dbReads) + 1
      ensures id !in old(cache) ==>
        cache == (if r == Err(NotFound) then old(cache)[id := None]
                  else if r.Ok? then old(cache)[id := Some(r.value)]
                  else old(cache))
    {
      if id in cache {
        match cache[id]
        case None => return Err(NotFound);
        case Some(b) => return Ok(b);
      }
      var wrapped := DbGet(id);
      if wrapped.Err? {
        if wrapped.error == NotFound {
          cache := cache[id := None];
        }
        return Err(wrapped.error);
      }
      var w := DecodeWrapper(wrapped.value);
      if w.Err? {
        return Err(w.error);
      }
      var body := DecodeBody(w.value.blk);
      if body.Err? {
        return Err(body.error);
      }
      EncodedDecodedBody(w.value.blk);
      var b := Initialize(body.value, w.value.blk, w.value.status, hash);
      cache := cache[id := Some(b)];
      r := Ok(b);
    }

    /**
     * `PutBlock`: writes the block to the cache, then its envelope to the
     * database under its ID; the last-accepted pointer is untouched. A
     * database fault leaves the cache ahead of the database.
     */
    method PutBlock(b: Block) returns (err: Option<Error>)
      modifies this`cache, this`db
      ensures |b.bytes| >= TWO_32 ==> err == Some(CodecFailure) && cache == old(cache) && db == old(db)
      ensures |b.bytes| < TWO_32 ==>
        cache == old(cache)[b.id := Some(b)] &&
        db == (if b.id in faults then old(db)
               else old(db)[b.id := EncodeWrapper(Wrapper(b.bytes, b.status)).value]) &&
        err == (if b.id in faults then Some(DbFailure) else None)
      ensures |b.bytes| < TWO_32 ==> Lookup(View(), b.id) == Ok(b)
      ensures LastAcceptedView() == old(LastAcceptedView())
      ensures old(Coherent(View())) && err.None? && Initialized(b, hash) ==> Coherent(View())
    {
      ghost var v0 := View();
      var wrapped := EncodeWrapper(Wrapper(b.bytes, b.status));
      if wrapped.Err? {
        return Some(wrapped.error);
      }
      cache := cache[b.id := Some(b)];
      BlockWritesKeepPointer(db, faults, b.id, wrapped.value);
      err := DbPut(b.id, wrapped.value);
      CachedAnswer(View(), b.id);
      if err.None? && Initialized(b, hash) && Coherent(v0) {
        PutKeepsCoherent(v0, b, wrapped.value);
      }
    }

    /** `DeleteBlock`: marks the ID absent in the cache and removes it from the database. */
    method DeleteBlock(id: ID) returns (err: Option<Error>)
      modifies this`cache, this`db
      ensures cache == old(cache)[id := None]
      ensures id in faults ==> err == Some(DbFailure) && db == old(db)
      ensures id !in faults ==> err == None && db == old(db) - {id}
      ensures Lookup(View(), id) == Err(NotFound)
      ensures LastAcceptedView() == old(LastAcceptedView())
      ensures old(Coherent(View())) && err.None? ==> Coherent(View())
    {
      cache := cache[id := None];
      BlockWritesKeepPointer(db, faults, id, []);
      err := DbDelete(id);
    }

    /** LRU eviction: forgets a cache entry and never touches the database. */
    method Evict(id: ID)
      modifies this`cache
      ensures View() == Evicted(old(View()), id)
      ensures old(Coherent(View())) ==> SameLookups(old(View()), View()) && Coherent(View())
    {
      cache := cache - {id};
      if Coherent(old(View())) {
        EvictionIsTransparent(old(View()), id);
      }
    }

    /**
     * `GetLastAccepted`: answers from memory unless memory holds `ids.Empty`;
     * only then reads the database, and keeps what it read.
     */
    method GetLastAccepted() returns (r: Result<ID>)
      modifies this`lastAccepted, this`dbReads
      ensures r == old(LastAcceptedView())
      ensures LastAcceptedView() == old(LastAcceptedView())
      ensures old(lastAccepted) != EmptyID ==> lastAccepted == old(lastAccepted) && dbReads == old(dbReads)
      ensures old(lastAccepted) == EmptyID ==>
        dbReads == old(dbReads) + 1 && lastAccepted == (if r.Ok? then r.value else EmptyID)
    {
      if lastAccepted != EmptyID {
        return Ok(lastAccepted);
      }
      var raw := DbGet(LastAcceptedKey);
      if raw.Err? {
        return Err(raw.error);
      }
      if |raw.value| != 32 {
        return Err(BadIdLength);
      }
      lastAccepted := raw.value;
      r := Ok(raw.value);
    }

    /**
     * `SetLastAccepted`: nothing happens when memory already holds the value;
     * otherwise memory is updated and the value persisted.
     */
    method SetLastAccepted(x: ID) returns (err: Option<Error>)
      modifies this`lastAccepted, this`db
      ensures lastAccepted == x
      ensures old(lastAccepted) == x ==> err == None && db == old(db)
      ensures old(lastAccepted) != x ==>
        (LastAcceptedKey in faults ==> err == Some(DbFailure) && db == old(db)) &&
        (LastAcceptedKey !in faults ==> err == None && db == old(db)[LastAcceptedKey := x])
      ensures err == None && x != EmptyID ==> LastAcceptedView() == Ok(x)
      ensures SameLookups(old(View()), View())
      ensures old(Coherent(View())) ==> Coherent(View())
    {
      if lastAccepted == x {
        return None;
      }
      lastAccepted := x;
      err := DbPut(LastAcceptedKey, x);
      forall id: ID ensures Lookup(old(View()), id) == Lookup(View(), id) {
        LastAcceptedKeyIsNoID(id);
      }
      forall id: ID ensures DbLookup(old(View()), id) == DbLookup(View(), id) {
        LastAcceptedKeyIsNoID(id);
      }
    }

    /** `GetBlockIDAtHeight`: answers the last-accepted ID, whatever the height. */
    method GetBlockIDAtHeight(height: u64) returns (r: Result<ID>)
      modifies this`lastAccepted, this`dbReads
      ensures r == old(LastAcceptedView())
      ensures LastAcceptedView() == old(LastAcceptedView())
    {
      r := GetLastAccepted();
    }

    method SetInitialized()
      modifies this`initialized
      ensures initialized
    {
      initialized := true;
    }
  }

  /** Setting the same pointer twice writes once: the second call is a no-op. */
  method SetLastAcceptedTwice(s: BlockState, x: ID) returns (first: Option<Error>, second: Option<Error>)
    modifies s`lastAccepted, s`db
    ensures second == None
    ensures s.lastAccepted == x
    ensures s.db ==
      if old(s.lastAccepted) == x || LastAcceptedKey in s.faults then old(s.db)
      else old(s.db)[LastAcceptedKey := x]
  {
    first := s.SetLastAccepted(x);
    second := s.SetLastAccepted(x);
  }
}
