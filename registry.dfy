/**
 * The strategy registry of the passwordless package: named strategies over one
 * token store, and the request/verify protocol run by strategy name.
 */
module Registry {
  import opened TokenStore
  import opened Protocol

  class Passwordless {
    const store: MockTokenStore
    var strategies: map<string, Strategy>

    /** New: a registry over `store` with no strategy registered. */
    constructor New(store: MockTokenStore)
      ensures this.store == store && strategies == map[]
    {
      this.store := store;
      strategies := map[];
    }

    /** The transport a request by `name` may use: that of a registered strategy valid for the context, if any. */
    ghost function UsedTransport(name: string): set<Transport>
      reads this
    {
      if name in strategies && strategies[name].valid then {strategies[name].transport} else {}
    }

    /** SetStrategy registers `s` under `name`, replacing any strategy of that name. */
    method SetStrategy(name: string, s: Strategy)
      modifies this
      ensures strategies == old(strategies)[name := s]
    {
      strategies := strategies[name := s];
    }

    /**
     * SetTransport registers, under `name`, the plain strategy made of `transport`,
     * `generator` and `ttl`, which is valid in every context, and returns it.
     */
    method SetTransport(name: string, transport: Transport, generator: Generator, ttl: int) returns (s: Strategy)
      modifies this
      ensures s == Strategy(generator, transport, ttl, true)
      ensures strategies == old(strategies)[name := s]
      ensures GetStrategy(name) == Ok(s)
    {
      s := Strategy(generator, transport, ttl, true);
      strategies := strategies[name := s];
    }

    /** GetStrategy: the strategy registered under `name`, or UnknownStrategy. */
    function GetStrategy(name: string): (r: Result<Strategy>)
      reads this
      ensures r.Ok? <==> name in strategies
      ensures r.Ok? ==> r.value == strategies[name]
      ensures r.Err? ==> r.error == UnknownStrategy
    {
      if name in strategies then Ok(strategies[name]) else Err(UnknownStrategy)
    }

    /** ListStrategies: every registered strategy under its name, each the one GetStrategy returns. */
    function ListStrategies(): (r: map<string, Strategy>)
      reads this
      ensures r.Keys == strategies.Keys
      ensures forall name :: name in r ==> GetStrategy(name) == Ok(r[name])
    {
      strategies
    }

    /**
     * RequestToken by strategy name: an unknown name fails with UnknownStrategy and
     * a strategy not valid for the context with NotValidForContext, in both cases
     * before anything is generated, sent or stored; otherwise the protocol runs
     * with that strategy and this registry's store, and no other strategy's
     * transport is touched.
     */
    method RequestToken(name: string, uid: string, recipient: string) returns (err: Option<Error>)
      modifies store, UsedTransport(name)
      ensures name !in strategies ==> err == Some(UnknownStrategy) && unchanged(store)
      ensures name in strategies && !strategies[name].valid ==> err == Some(NotValidForContext) && unchanged(store)
      ensures name in strategies && strategies[name].valid ==>
                var s := strategies[name];
                err == FirstError([s.generator.err, s.transport.err, store.storeErr]) &&
                (s.generator.err.Some? ==> unchanged(s.transport)) &&
                (s.generator.err.None? ==> s.transport.token == s.generator.token && s.transport.recipient == recipient) &&
                store.calls == old(store.calls) +
                  (if s.generator.err.None? && s.transport.err.None? then [StoreCall(s.generator.token, uid, s.ttl)] else [])
    {
      var found := GetStrategy(name);
      if found.Err? {
        return Some(found.error);
      }
      var s := found.value;
      if !s.valid {
        return Some(NotValidForContext);
      }
      err := Protocol.RequestToken(store, s, uid, recipient);
    }

    /** VerifyToken by user: the protocol's VerifyToken on this registry's store. */
    method VerifyToken(uid: string, token: string) returns (valid: bool, err: Option<Error>)
      modifies store
      ensures VerifyReply(valid, err) == VerifyTokenOutcome(store.verifyReply, store.deleteErr)
      ensures store.calls == old(store.calls) + [VerifyCall(token, uid)] +
                (if store.verifyReply.valid && store.verifyReply.err.None? then [DeleteCall(uid)] else [])
    {
      valid, err := Protocol.VerifyToken(store, uid, token);
    }
  }
}
