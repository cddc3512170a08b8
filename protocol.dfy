/**
 * The request/verify protocol of the passwordless package, over the
 * collaborators its tests use: a generator that yields a fixed token or error,
 * a transport that records what it was asked to send, and a token store whose
 * replies are fixed in advance and which keeps a log of the calls it receives.
 *
 * RequestToken runs generate, then send, then store, and stops at the first
 * failure, returning it unchanged. VerifyToken asks the store to verify and,
 * only when the token is valid, asks it to delete the user's token.
 */
module Protocol {
  import opened TokenStore

  /** A token generator whose Generate yields `token`, or fails with `err`. */
  datatype Generator = Generator(token: string, err: Option<Error>)

  /** A transport whose Send records the token and recipient it was given and then returns `err`. */
  class Transport {
    var token: string
    var recipient: string
    const err: Option<Error>

    constructor (err: Option<Error>)
      ensures token == "" && recipient == "" && this.err == err
    {
      token, recipient := "", "";
      this.err := err;
    }

    method Send(token: string, user: string, recipient: string) returns (e: Option<Error>)
      modifies this
      ensures this.token == token && this.recipient == recipient && e == err
    {
      this.token := token;
      this.recipient := recipient;
      e := err;
    }
  }

  /** A strategy: its generator, its transport, the ttl its tokens get, and whether it is valid for the current context. */
  datatype Strategy = Strategy(generator: Generator, transport: Transport, ttl: int, valid: bool)

  /** A call a token store receives, with its arguments. */
  datatype StoreCall =
    | StoreCall(token: string, uid: string, ttl: int)
    | VerifyCall(token: string, uid: string)
    | DeleteCall(uid: string)

  /** A token store whose Store, Verify and Delete give fixed replies; `calls` logs every call made on it. */
  class MockTokenStore {
    const storeErr: Option<Error>
    const verifyReply: VerifyReply
    const deleteErr: Option<Error>
    var calls: seq<StoreCall>

    constructor (storeErr: Option<Error>, verifyReply: VerifyReply, deleteErr: Option<Error>)
      ensures this.storeErr == storeErr && this.verifyReply == verifyReply && this.deleteErr == deleteErr
      ensures calls == []
    {
      this.storeErr, this.verifyReply, this.deleteErr := storeErr, verifyReply, deleteErr;
      calls := [];
    }

    method Store(token: string, uid: string, ttl: int) returns (err: Option<Error>)
      modifies this
      ensures calls == old(calls) + [StoreCall(token, uid, ttl)] && err == storeErr
    {
      calls := calls + [StoreCall(token, uid, ttl)];
      err := storeErr;
    }

    method Verify(token: string, uid: string) returns (r: VerifyReply)
      modifies this
      ensures calls == old(calls) + [VerifyCall(token, uid)] && r == verifyReply
    {
      calls := calls + [VerifyCall(token, uid)];
      r := verifyReply;
    }

    method Delete(uid: string) returns (err: Option<Error>)
      modifies this
      ensures calls == old(calls) + [DeleteCall(uid)] && err == deleteErr
    {
      calls := calls + [DeleteCall(uid)];
      err := deleteErr;
    }
  }

  /**
   * The number of stages that succeed before the first failing one: every stage
   * before it succeeded, and the stage at it (if any) failed.
   */
  function FirstFailing(stages: seq<Option<Error>>): (k: nat)
    ensures k <= |stages|
    ensures forall j :: 0 <= j < k ==> stages[j].None?
    ensures k < |stages| ==> stages[k].Some?
  {
    if stages == [] || stages[0].Some? then 0 else 1 + FirstFailing(stages[1..])
  }

  /** The outcome of running the stages in order: the first failure, or none when all succeed. */
  function FirstError(stages: seq<Option<Error>>): (r: Option<Error>)
    ensures r.None? <==> forall i :: 0 <= i < |stages| ==> stages[i].None?
    ensures r.Some? ==> r == stages[FirstFailing(stages)]
  {
    var k := FirstFailing(stages);
    if k < |stages| then stages[k] else None
  }

  /**
   * RequestToken for a resolved strategy: generate, then send the token to the
   * recipient, then store it with the strategy's ttl. The first failing stage's
   * error is the result, unchanged, and no later stage runs: a failed generate
   * touches neither transport nor store; a failed send leaves the store untouched.
   */
  method RequestToken(store: MockTokenStore, strategy: Strategy, uid: string, recipient: string)
    returns (err: Option<Error>)
    modifies store, strategy.transport
    ensures err == FirstError([strategy.generator.err, strategy.transport.err, store.storeErr])
    ensures strategy.generator.err.Some? ==> unchanged(store, strategy.transport)
    ensures strategy.generator.err.None? ==>
              strategy.transport.token == strategy.generator.token && strategy.transport.recipient == recipient
    ensures strategy.generator.err.None? && strategy.transport.err.Some? ==> unchanged(store)
    ensures strategy.generator.err.None? && strategy.transport.err.None? ==>
              store.calls == old(store.calls) + [StoreCall(strategy.generator.token, uid, strategy.ttl)]
  {
    ghost var stages := [strategy.generator.err, strategy.transport.err, store.storeErr];
    var token, genErr := strategy.generator.token, strategy.generator.err;
    if genErr.Some? {
      return genErr;
    }
    var sendErr := strategy.transport.Send(token, uid, recipient);
    assert stages[1..] == [sendErr, store.storeErr];
    if sendErr.Some? {
      assert FirstFailing(stages) == 1 + FirstFailing(stages[1..]) == 1;
      return sendErr;
    }
    err := store.Store(token, uid, strategy.ttl);
    assert stages[1..][1..] == [err] && [err][1..] == [];
    assert FirstFailing(stages) == 2 + FirstFailing([err]);
  }

  /**
   * What VerifyToken reports, given the store's verify reply and what a delete
   * would return: a verify error is passed on with false; a clean negative is
   * (false, no error); a valid token is reported valid together with the delete's error.
   */
  function VerifyTokenOutcome(reply: VerifyReply, deleteErr: Option<Error>): (r: VerifyReply)
    ensures r.valid <==> reply.valid && reply.err.None?
    ensures reply.err.Some? ==> r.err == reply.err
    ensures reply.err.None? && !reply.valid ==> r.err.None?
    ensures r.valid ==> r.err == deleteErr
  {
    if reply.err.Some? then VerifyReply(false, reply.err)
    else if reply.valid then VerifyReply(true, deleteErr)
    else VerifyReply(false, None)
  }

  /**
   * VerifyToken: verify with the store; only if the token is valid (and verify
   * reported no error), delete the user's token, and report valid with the
   * delete's error, if any.
   */
  method VerifyToken(store: MockTokenStore, uid: string, token: string) returns (valid: bool, err: Option<Error>)
    modifies store
    ensures VerifyReply(valid, err) == VerifyTokenOutcome(store.verifyReply, store.deleteErr)
    ensures store.calls == old(store.calls) + [VerifyCall(token, uid)] +
              (if store.verifyReply.valid && store.verifyReply.err.None? then [DeleteCall(uid)] else [])
  {
    var reply := store.Verify(token, uid);
    if reply.err.Some? {
      return false, reply.err;
    }
    if reply.valid {
      var deleteErr := store.Delete(uid);
      if deleteErr.Some? {
        return true, deleteErr;
      }
    }
    return reply.valid, None;
  }
}
