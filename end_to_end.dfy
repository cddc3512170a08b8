/**
 * The SQLite store under the verify protocol: what VerifyToken reports, and
 * what the table still holds, once a token has been stored and is then verified.
 * With Delete as written (a stub that always fails and removes nothing) a
 * verified token is reported with an error and stays usable; with DeleteRow,
 * which removes the user's row, it is reported without error and consumed.
 */
module EndToEnd {
  import opened TokenStore
  import opened SQLite
  import opened Protocol

  /**
   * As written: after a successful Store of `token` for `uid`, a wrong token is a
   * clean negative, but the right one is reported valid together with the Delete
   * stub's error, and because the stub leaves the table as it was, the same token
   * verifies again at any later second up to its expiry.
   */
  lemma StubDeleteLeavesTokenReplayable(table: Table, token: string, other: string, uid: string,
                                        ttl: int, now: int, salt: int, later: int)
    requires other != token && now <= later <= now + ttl
    ensures var t := Upsert(table, uid, Hash(token, salt), now, ttl);
      VerifyTokenOutcome(Verify(t, other, uid, now, NoFault), Some(TodoDelete)) == VerifyReply(false, None) &&
      VerifyTokenOutcome(Verify(t, token, uid, now, NoFault), Some(TodoDelete)) == VerifyReply(true, Some(TodoDelete)) &&
      Verify(t, token, uid, later, NoFault) == VerifyReply(true, None)
  {
  }

  /**
   * Corrected: with DeleteRow, the right token is reported valid with no error,
   * and afterwards it is rejected as not found at every later second, so it
   * cannot be used twice.
   */
  lemma DeleteRowConsumesToken(table: Table, token: string, uid: string, ttl: int, now: int, salt: int, later: int)
    requires ttl >= 0
    ensures var t := Upsert(table, uid, Hash(token, salt), now, ttl);
      VerifyTokenOutcome(Verify(t, token, uid, now, NoFault), None) == VerifyReply(true, None) &&
      Verify(t - {uid}, token, uid, later, NoFault) == VerifyReply(false, Some(TokenNotFound))
  {
  }
}
