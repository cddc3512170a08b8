/**
 * The token-store contract of the passwordless package: the error values the
 * package defines, and the promise each operation of the TokenStore interface
 * (Store, Exists, Verify, Delete) makes. The promises are stated over an
 * abstract view of what a store holds for each user id, so that any backend
 * can be proved to keep them by relating its own state to that view.
 */
module TokenStore {

  datatype Option<+T> = None | Some(value: T)

  /**
   * The error values of the package. The first four are the sentinels declared
   * beside the TokenStore interface; UnknownStrategy and NotValidForContext are
   * the registry's sentinels; every other error (a database or hashing failure,
   * an error a generator, transport or store returns) is Other, known by its text.
   * Errors are compared by kind: the stack a wrapper attaches is not modelled.
   */
  datatype Error =
    | TokenNotFound
    | TokenExpired
    | DBConnectionNotValid
    | TableNameNotValid
    | UnknownStrategy
    | NotValidForContext
    | Other(message: string)

  datatype Result<+T> = Ok(value: T) | Err(error: Error)

  /** The four sentinels a store and its constructor return. */
  predicate IsStoreSentinel(e: Error) {
    e.TokenNotFound? || e.TokenExpired? || e.DBConnectionNotValid? || e.TableNameNotValid?
  }

  /**
   * The text an error reports. The registry's sentinels are declared in a file
   * that is not part of this model, so their text is unknown here (None).
   */
  function Message(e: Error): (m: Option<string>)
    ensures m.Some? <==> IsStoreSentinel(e) || e.Other?
    ensures e.Other? ==> m == Some(e.message)
  {
    match e
    case TokenNotFound => Some("the token does not exist")
    case TokenExpired => Some("the token is expired")
    case DBConnectionNotValid => Some("db connection is not valid")
    case TableNameNotValid => Some("table name is not valid")
    case UnknownStrategy => None
    case NotValidForContext => None
    case Other(text) => Some(text)
  }

  /** Distinct store sentinels report distinct texts, so callers can tell them apart by text too. */
  lemma StoreSentinelsDistinct(a: Error, b: Error)
    requires IsStoreSentinel(a) && IsStoreSentinel(b) && a != b
    ensures Message(a).Some? && Message(b).Some? && Message(a) != Message(b)
  {
  }

  /**
   * Unix seconds of Go's zero time.Time (0001-01-01 00:00:00 UTC): the instant
   * Exists returns when it has no expiry to report (time.Time.IsZero holds).
   */
  const ZeroTime: int := -62135596800

  /** What a store holds for one user: the token it was last given, and the second after which that token lapses. */
  datatype Entry = Entry(token: string, expires: int)

  /** The abstract state of a token store: at most one entry per user id. */
  type Tokens = map<string, Entry>

  /** The user has a token that has not lapsed at `now`; a token is still good in its last second. */
  predicate Live(s: Tokens, uid: string, now: int) {
    uid in s && now <= s[uid].expires
  }

  /** `token` is valid for `uid` at `now`: the user's entry is live and holds exactly that token. */
  predicate Accepts(s: Tokens, token: string, uid: string, now: int) {
    Live(s, uid, now) && s[uid].token == token
  }

  /** What Exists returns: (exists, expires, err); `present` is the `exists` result, whose name is a Dafny keyword. */
  datatype ExistsReply = ExistsReply(present: bool, expires: int, err: Option<Error>)

  /** What Verify returns: (valid, err). */
  datatype VerifyReply = VerifyReply(valid: bool, err: Option<Error>)

  /**
   * The state Store promises: the user's token is now `token`, good until
   * ttl seconds after `now` and not after; every other user keeps what it had.
   */
  function Stored(s: Tokens, token: string, uid: string, ttl: int, now: int): (s': Tokens)
    ensures forall t, later :: Accepts(s', t, uid, later) <==> t == token && later <= now + ttl
    ensures s'.Keys == s.Keys + {uid}
    ensures forall u :: u in s && u != uid ==> s'[u] == s[u]
  {
    s[uid := Entry(token, now + ttl)]
  }

  /** Store "securely stores the given token with the given expiry time", when it reports no error. */
  predicate StoreHonours(s: Tokens, s': Tokens, token: string, uid: string, ttl: int, now: int, err: Option<Error>) {
    err.None? ==> s' == Stored(s, token, uid, ttl, now)
  }

  /**
   * Exists, as the interface promises it: true only for a live token, whose
   * expiry it then returns with no error; when it returns false the expiry is
   * the zero time; with no error it is true exactly for a live token.
   */
  predicate ExistsKeepsPromise(s: Tokens, uid: string, now: int, r: ExistsReply) {
    (r.present ==> Live(s, uid, now) && r.expires == s[uid].expires && r.err.None?) &&
    (!r.present ==> r.expires == ZeroTime) &&
    (r.err.None? ==> (r.present <==> Live(s, uid, now)))
  }

  /** The sentinels Exists or Verify returns mean what they say: NotFound that the user has no token, Expired that it lapsed. */
  predicate ErrorsTruthful(s: Tokens, uid: string, now: int, err: Option<Error>) {
    (err == Some(TokenNotFound) ==> uid !in s) &&
    (err == Some(TokenExpired) ==> uid in s && !Live(s, uid, now))
  }

  /** Exists keeps its promise and its sentinels are truthful. */
  predicate ExistsHonours(s: Tokens, uid: string, now: int, r: ExistsReply) {
    ExistsKeepsPromise(s, uid, now, r) && ErrorsTruthful(s, uid, now, r.err)
  }

  /**
   * Verify, as the interface promises it: true only with no error; with no
   * error it is true exactly when the token is valid for the user.
   */
  predicate VerifyKeepsPromise(s: Tokens, token: string, uid: string, now: int, r: VerifyReply) {
    (r.valid ==> r.err.None?) &&
    (r.err.None? ==> (r.valid <==> Accepts(s, token, uid, now)))
  }

  /** Verify keeps its promise and its sentinels are truthful. */
  predicate VerifyHonours(s: Tokens, token: string, uid: string, now: int, r: VerifyReply) {
    VerifyKeepsPromise(s, token, uid, now, r) && ErrorsTruthful(s, uid, now, r.err)
  }

  /** Delete "removes the token for the specified user", when it reports no error. */
  predicate DeleteHonours(s: Tokens, s': Tokens, uid: string, err: Option<Error>) {
    err.None? ==> s' == s - {uid}
  }

  /**
   * Any store that keeps the contract accepts, after a successful Store, exactly
   * the token just stored and only until its expiry.
   */
  lemma VerifyAfterStore(s: Tokens, s': Tokens, token: string, uid: string, ttl: int, now: int,
                         t: string, later: int, r: VerifyReply)
    requires StoreHonours(s, s', token, uid, ttl, now, None)
    requires VerifyHonours(s', t, uid, later, r) && r.err.None?
    ensures r.valid <==> t == token && later <= now + ttl
  {
  }

  /** Any store that keeps the contract rejects every token of a user after a successful Delete. */
  lemma VerifyAfterDelete(s: Tokens, s': Tokens, uid: string, t: string, later: int, r: VerifyReply)
    requires DeleteHonours(s, s', uid, None)
    requires VerifyHonours(s', t, uid, later, r)
    ensures !r.valid
    ensures r.err != Some(TokenExpired)
  {
  }
}
