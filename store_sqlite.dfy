/**
 * The SQLite token store: a session table with at most one row per user id
 * (uid is the primary key), holding a bcrypt hash of the token, the second at
 * which the token lapses and the second the row was first created.
 *
 * The database is modelled by the table's contents, a map from uid to row.
 * The Go methods have value receivers that read or write the database, so the
 * read-only lookups are functions of the table value and the writes are methods
 * of a class whose field is the table. The clock is an argument `now` in whole
 * seconds; the bcrypt salt is an argument; a database, hashing, scanning or
 * timestamp-parsing failure is an argument naming the failure.
 */
module SQLite {
  import opened TokenStore

  /** Table name used when the caller gives none. */
  const TableName: string := "session"

  /** Layout of the timestamps written to and read from the table. */
  const DateFormatISO8601: string := "2006-01-02T15:04:05Z"

  /** The error the Delete stub returns. */
  const TodoDelete: Error := Other("TODO Delete")

  // ---------------------------------------------------------------------------
  // bcrypt, seen only through its compare law
  // ---------------------------------------------------------------------------

  /** A bcrypt hash. Only Compare looks inside it. */
  datatype Digest = Digest(salt: int, secret: string)

  /** GenerateFromPassword with the salt it drew: the hash opens for the token and for nothing else. */
  function Hash(token: string, salt: int): (d: Digest)
    ensures Opens(d, token)
  {
    Digest(salt, token)
  }

  /** CompareHashAndPassword succeeds. */
  predicate Compare(d: Digest, candidate: string) {
    d.secret == candidate
  }

  /** `d` opens for `token` and for nothing else. */
  ghost predicate Opens(d: Digest, token: string) {
    forall c :: Compare(d, c) <==> c == token
  }

  // ---------------------------------------------------------------------------
  // The session table
  // ---------------------------------------------------------------------------

  /** One row of the session table, without its key. */
  datatype Row = Row(tokenHash: Digest, expires: int, created: int)

  /** The session table, keyed by its primary key uid: at most one row per user. */
  type Table = map<string, Row>

  /** A session read back from the table. */
  datatype Session = Session(tokenHash: Digest, uid: string, expires: int, created: int)

  /**
   * How a lookup fails, if it does: the query itself; stepping to the first row
   * of the result (whose error is never read); or reading back the row it found
   * (scanning it, the result's error after the step, parsing its timestamps).
   */
  datatype LookupFault = NoFault | QueryFailed(message: string) | StepFailed | ReadFailed(message: string)

  /**
   * getSessionByUID: a failing query reports its error; then a missing row, or a
   * step to it that fails, is TokenNotFound; then a row that cannot be scanned or
   * parsed reports that error; otherwise the row, as a session of that uid.
   */
  function GetSessionByUID(table: Table, uid: string, fault: LookupFault): (r: Result<Session>)
    ensures fault.QueryFailed? ==> r == Err(Other(fault.message))
    ensures !fault.QueryFailed? && (uid !in table || fault.StepFailed?) ==> r == Err(TokenNotFound)
    ensures fault.ReadFailed? && uid in table ==> r == Err(Other(fault.message))
    ensures r.Ok? <==> fault.NoFault? && uid in table
    ensures r.Ok? ==> r.value.uid == uid && r.value.tokenHash == table[uid].tokenHash &&
                      r.value.expires == table[uid].expires && r.value.created == table[uid].created
  {
    if fault.QueryFailed? then Err(Other(fault.message))
    else if uid !in table || fault.StepFailed? then Err(TokenNotFound)
    else if fault.ReadFailed? then Err(Other(fault.message))
    else
      var row := table[uid];
      Ok(Session(row.tokenHash, uid, row.expires, row.created))
  }

  /**
   * Exists: a failed lookup gives false with the zero time and the lookup's own
   * error (a failed query or an unreadable row reports its text, never TokenExpired);
   * a row whose expiry is before `now` gives false, the zero time and TokenExpired,
   * never the stale expiry; otherwise true with the stored expiry.
   */
  function Exists(table: Table, uid: string, now: int, fault: LookupFault): (r: ExistsReply)
    ensures r.present <==> fault.NoFault? && uid in table && now <= table[uid].expires
    ensures r.present ==> r.expires == table[uid].expires && r.err.None?
    ensures !r.present ==> r.expires == ZeroTime && r.err.Some?
    ensures !fault.QueryFailed? && (uid !in table || fault.StepFailed?) ==> r.err == Some(TokenNotFound)
    ensures fault.NoFault? && uid in table && now > table[uid].expires ==> r.err == Some(TokenExpired)
    ensures fault.QueryFailed? || (fault.ReadFailed? && uid in table) ==>
              r == ExistsReply(false, ZeroTime, Some(Other(fault.message)))
  {
    match GetSessionByUID(table, uid, fault)
    case Err(e) => ExistsReply(false, ZeroTime, Some(e))
    case Ok(session) =>
      if now > session.expires then ExistsReply(false, ZeroTime, Some(TokenExpired))
      else ExistsReply(true, session.expires, None)
  }

  /**
   * Verify, in its fixed order: a failed lookup gives false with the lookup's own
   * error (a failed query or an unreadable row reports its text, so it is never
   * mistaken for a mismatch); then an expired row gives false with TokenExpired,
   * whatever the token; only then is the hash compared, and a mismatch is false
   * with no error.
   */
  function Verify(table: Table, token: string, uid: string, now: int, fault: LookupFault): (r: VerifyReply)
    ensures r.valid <==> fault.NoFault? && uid in table && now <= table[uid].expires &&
                         Compare(table[uid].tokenHash, token)
    ensures r.valid ==> r.err.None?
    ensures !fault.QueryFailed? && (uid !in table || fault.StepFailed?) ==> r == VerifyReply(false, Some(TokenNotFound))
    ensures fault.NoFault? && uid in table && now > table[uid].expires ==> r == VerifyReply(false, Some(TokenExpired))
    ensures fault.QueryFailed? || (fault.ReadFailed? && uid in table) ==> r == VerifyReply(false, Some(Other(fault.message)))
    ensures (fault.NoFault? && uid in table && now <= table[uid].expires &&
             !Compare(table[uid].tokenHash, token)) ==> r == VerifyReply(false, None)
  {
    match GetSessionByUID(table, uid, fault)
    case Err(e) => VerifyReply(false, Some(e))
    case Ok(session) =>
      if now > session.expires then VerifyReply(false, Some(TokenExpired))
      else if !Compare(session.tokenHash, token) then VerifyReply(false, None)
      else VerifyReply(true, None)
  }

  /**
   * The insert-or-update on uid: the user's row gets the new hash and expires = now + ttl;
   * an existing row keeps its created time, a new row is created at `now`; no other row changes.
   */
  function Upsert(table: Table, uid: string, tokenHash: Digest, now: int, ttl: int): (r: Table)
    ensures r.Keys == table.Keys + {uid}
    ensures r[uid].tokenHash == tokenHash && r[uid].expires == now + ttl
    ensures r[uid].created == if uid in table then table[uid].created else now
    ensures forall u :: u in table && u != uid ==> r[u] == table[u]
  {
    var created := if uid in table then table[uid].created else now;
    table[uid := Row(tokenHash, now + ttl, created)]
  }

  // ---------------------------------------------------------------------------
  // The store object
  // ---------------------------------------------------------------------------

  class SQLiteStore {
    const tableName: string
    const dateFormat: string
    /** The contents of the session table behind the connection. */
    var table: Table

    constructor (tableName: string, table: Table)
      ensures this.tableName == tableName && this.dateFormat == DateFormatISO8601 && this.table == table
    {
      this.tableName := tableName;
      this.dateFormat := DateFormatISO8601;
      this.table := table;
    }

    /**
     * Store: hash the token, then upsert the user's row. If hashing or building or
     * running the query fails (`fault`), that error is returned and the table is unchanged.
     */
    method Store(token: string, uid: string, ttl: int, now: int, salt: int, fault: Option<string>)
      returns (err: Option<Error>)
      modifies this
      ensures fault.Some? ==> err == Some(Other(fault.value)) && table == old(table)
      ensures fault.None? ==> err.None? && table == Upsert(old(table), uid, Hash(token, salt), now, ttl)
      ensures fault.None? ==> forall later :: later <= now + ttl ==> Verify(table, token, uid, later, NoFault) == VerifyReply(true, None)
    {
      if fault.Some? {
        return Some(Other(fault.value));
      }
      var hashedToken := Hash(token, salt);
      table := Upsert(table, uid, hashedToken, now, ttl);
      err := None;
    }

    /** Delete as written: a stub that always fails and removes nothing. */
    method Delete(uid: string) returns (err: Option<Error>)
      ensures err == Some(TodoDelete)
    {
      err := Some(TodoDelete);
    }

    /**
     * Delete as the TokenStore contract promises it: the user's row is removed,
     * unless the statement fails (`fault`), in which case nothing changes.
     */
    method DeleteRow(uid: string, fault: Option<string>) returns (err: Option<Error>)
      modifies this
      ensures fault.Some? ==> err == Some(Other(fault.value)) && table == old(table)
      ensures fault.None? ==> err.None? && table == old(table) - {uid}
    {
      if fault.Some? {
        return Some(Other(fault.value));
      }
      table := table - {uid};
      err := None;
    }
  }

  /**
   * NewSQLiteStore: no connection (db is None) fails with DBConnectionNotValid;
   * otherwise a store over the connection's table, named `tableName` or "session"
   * when that is empty, with the ISO-8601 timestamp layout.
   */
  method NewSQLiteStore(db: Option<Table>, tableName: string) returns (store: SQLiteStore?, err: Option<Error>)
    ensures db.None? ==> store == null && err == Some(DBConnectionNotValid)
    ensures db.Some? ==> err.None? && store != null && fresh(store) && store.table == db.value &&
                         store.tableName == (if tableName == "" then TableName else tableName) &&
                         store.dateFormat == DateFormatISO8601
  {
    if db.None? {
      return null, Some(DBConnectionNotValid);
    }
    var name := if tableName == "" then TableName else tableName;
    store := new SQLiteStore(name, db.value);
    err := None;
  }

  // ---------------------------------------------------------------------------
  // The table keeps the TokenStore contract
  // ---------------------------------------------------------------------------

  /** The table stands for the abstract store `s`: same users, same expiries, and each hash opens for that user's token. */
  ghost predicate Represents(table: Table, s: Tokens) {
    table.Keys == s.Keys &&
    forall u :: u in table ==> table[u].expires == s[u].expires && Opens(table[u].tokenHash, s[u].token)
  }

  /**
   * Exists keeps the interface's promise whatever fails; its sentinels are
   * truthful unless the step to the row fails (see StepFailureReportsNotFound).
   */
  lemma ExistsHonoursContract(table: Table, s: Tokens, uid: string, now: int, fault: LookupFault)
    requires Represents(table, s)
    ensures ExistsKeepsPromise(s, uid, now, Exists(table, uid, now, fault))
    ensures !fault.StepFailed? ==> ExistsHonours(s, uid, now, Exists(table, uid, now, fault))
  {
  }

  /**
   * Verify keeps the interface's promise whatever fails; its sentinels are
   * truthful unless the step to the row fails (see StepFailureReportsNotFound).
   */
  lemma VerifyHonoursContract(table: Table, s: Tokens, token: string, uid: string, now: int, fault: LookupFault)
    requires Represents(table, s)
    ensures VerifyKeepsPromise(s, token, uid, now, Verify(table, token, uid, now, fault))
    ensures !fault.StepFailed? ==> VerifyHonours(s, token, uid, now, Verify(table, token, uid, now, fault))
  {
  }

  /**
   * A failing step to the first row is reported as TokenNotFound even when the
   * user has a row, so that sentinel is then untruthful; Exists and Verify still
   * return (false, zero time) and false, as the promise allows for an error.
   */
  lemma StepFailureReportsNotFound(table: Table, s: Tokens, token: string, uid: string, now: int)
    requires Represents(table, s) && uid in s
    ensures Exists(table, uid, now, StepFailed) == ExistsReply(false, ZeroTime, Some(TokenNotFound))
    ensures Verify(table, token, uid, now, StepFailed) == VerifyReply(false, Some(TokenNotFound))
    ensures !ErrorsTruthful(s, uid, now, Some(TokenNotFound))
  {
  }

  lemma StoreHonoursContract(table: Table, s: Tokens, token: string, uid: string, ttl: int, now: int, salt: int)
    requires Represents(table, s)
    ensures Represents(Upsert(table, uid, Hash(token, salt), now, ttl), Stored(s, token, uid, ttl, now))
  {
  }

  lemma DeleteRowHonoursContract(table: Table, s: Tokens, uid: string)
    requires Represents(table, s)
    ensures Represents(table - {uid}, s - {uid})
  {
  }

  // ---------------------------------------------------------------------------
  // Scenarios of the store's own tests, for every table and every clock
  // ---------------------------------------------------------------------------

  /**
   * Store then Verify: the stored token is accepted up to and including its expiry
   * second and rejected after, any other token is a negative result with no error,
   * and Exists reports the stored expiry.
   */
  lemma StoreThenVerify(table: Table, token: string, other: string, uid: string, ttl: int, now: int, salt: int, later: int)
    requires other != token
    ensures var t := Upsert(table, uid, Hash(token, salt), now, ttl);
      (later <= now + ttl ==> Verify(t, token, uid, later, NoFault) == VerifyReply(true, None)) &&
      (later <= now + ttl ==> Verify(t, other, uid, later, NoFault) == VerifyReply(false, None)) &&
      (later <= now + ttl ==> Exists(t, uid, later, NoFault) == ExistsReply(true, now + ttl, None)) &&
      (later > now + ttl ==> Verify(t, token, uid, later, NoFault) == VerifyReply(false, Some(TokenExpired)))
  {
  }

  /** A token stored with a negative ttl is already expired: Exists and Verify both say TokenExpired. */
  lemma StoreExpiredThenLookup(table: Table, token: string, other: string, uid: string, ttl: int, now: int, salt: int)
    requires ttl < 0
    ensures var t := Upsert(table, uid, Hash(token, salt), now, ttl);
      Exists(t, uid, now, NoFault) == ExistsReply(false, ZeroTime, Some(TokenExpired)) &&
      Verify(t, other, uid, now, NoFault) == VerifyReply(false, Some(TokenExpired))
  {
  }

  /** A second Store for the same user replaces the first token: only the newer one verifies. */
  lemma ReplaceInvalidatesEarlier(table: Table, t1: string, t2: string, uid: string, ttl: int,
                                  now1: int, now2: int, salt1: int, salt2: int, later: int)
    requires t1 != t2 && later <= now2 + ttl
    ensures var first := Upsert(table, uid, Hash(t1, salt1), now1, ttl);
      var second := Upsert(first, uid, Hash(t2, salt2), now2, ttl);
      Verify(second, t1, uid, later, NoFault) == VerifyReply(false, None) &&
      Verify(second, t2, uid, later, NoFault) == VerifyReply(true, None) &&
      second[uid].created == first[uid].created
  {
  }

  // ---------------------------------------------------------------------------
  // Any run of Store calls: the last one for each user wins
  // ---------------------------------------------------------------------------

  /** One successful Store call: its arguments, the clock reading and the salt bcrypt drew. */
  datatype StoreRequest = StoreRequest(token: string, uid: string, ttl: int, now: int, salt: int)

  /** The table after the given successful Store calls, applied in order. */
  function StoreAll(table: Table, reqs: seq<StoreRequest>): Table
    decreases |reqs|
  {
    if reqs == [] then table
    else
      var q := reqs[|reqs| - 1];
      Upsert(StoreAll(table, reqs[..|reqs| - 1]), q.uid, Hash(q.token, q.salt), q.now, q.ttl)
  }

  /** The last of the requests made for `uid`, if any. */
  function LastFor(reqs: seq<StoreRequest>, uid: string): (r: Option<StoreRequest>)
    ensures r.Some? ==> r.value in reqs && r.value.uid == uid
    ensures r.None? ==> forall q :: q in reqs ==> q.uid != uid
    decreases |reqs|
  {
    if reqs == [] then None
    else if reqs[|reqs| - 1].uid == uid then Some(reqs[|reqs| - 1])
    else LastFor(reqs[..|reqs| - 1], uid)
  }

  /**
   * After any run of Store calls, a user named by some call holds exactly the
   * token and expiry of the last such call; any other user's row is as it was.
   */
  lemma {:induction false} LastStoreWins(table: Table, reqs: seq<StoreRequest>, uid: string)
    ensures var r := StoreAll(table, reqs);
      match LastFor(reqs, uid)
      case None => (uid in r <==> uid in table) && (uid in table ==> r[uid] == table[uid])
      case Some(q) => uid in r && Opens(r[uid].tokenHash, q.token) && r[uid].expires == q.now + q.ttl
    decreases |reqs|
  {
    if reqs != [] {
      LastStoreWins(table, reqs[..|reqs| - 1], uid);
    }
  }

  /** After any run of Store calls, only the last token stored for the user verifies, and only until its expiry. */
  lemma OnlyLastTokenVerifies(table: Table, reqs: seq<StoreRequest>, uid: string, q: StoreRequest, token: string, later: int)
    requires LastFor(reqs, uid) == Some(q)
    ensures Verify(StoreAll(table, reqs), token, uid, later, NoFault).valid <==> token == q.token && later <= q.now + q.ttl
  {
    LastStoreWins(table, reqs, uid);
  }
}
