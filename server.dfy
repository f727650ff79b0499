/**
 * The chain as the program runs it: a sequencer object holding the handler
 * list and the cross map the interpose handler was built with, an explicit
 * cursor standing in for the context that carries "the next handler", and
 * an endpoint object that handlers update in place.
 */
module Server {
  import opened Results
  import opened Endpoints
  import opened StringUrl
  import opened Pipeline

  class Sequencer {
    const handlers: seq<Handler>
    /** The map the chain's interpose handler holds a reference to. */
    const crossMap: UrlMap

    constructor (handlers: seq<Handler>, crossMap: UrlMap)
      ensures this.handlers == handlers && this.crossMap == crossMap
    {
      this.handlers := handlers;
      this.crossMap := crossMap;
    }

    /**
     * The heap after a `Register` agrees with the step `s` of the chain:
     * same endpoint fields, same map, and an Ok result that is the very
     * object passed nse.
     */
    ghost predicate Reflects(r: Result<Endpoint>, nse: Endpoint, s: Step<Nse>)
      reads crossMap, nse
    {
      && nse.Value() == s.input
      && crossMap.entries == s.crossMap
      && match r
         case Ok(out) => out == nse && s.result == Ok(s.input)
         case Err(err) => s.result == Err(err)
    }

    /** Runs `Register` through the whole chain, starting at its first handler. */
    method Register(nse: Endpoint) returns (r: Result<Endpoint>)
      modifies crossMap, nse`name
      ensures Reflects(r, nse, ChainRegister(handlers, 0, old(crossMap.entries), old(nse.Value())))
    {
      r := NextRegister(0, nse);
    }

    /** Hands `Register` to the handler at `cursor`, or to the terminal no-op past the end. */
    method NextRegister(cursor: nat, nse: Endpoint) returns (r: Result<Endpoint>)
      requires cursor <= |handlers|
      modifies crossMap, nse`name
      ensures Reflects(r, nse, ChainRegister(handlers, cursor, old(crossMap.entries), old(nse.Value())))
      decreases |handlers| - cursor, 0
    {
      if cursor == |handlers| {
        r := Ok(nse);
      } else {
        match handlers[cursor]
        case Interpose =>
          r := InterposeRegister(cursor + 1, nse);
        case TestRegistry =>
          r := TestRegistryRegister(cursor + 1, nse);
      }
    }

    /** The interpose handler's `Register`; `next` is the cursor of the handler after it. */
    method InterposeRegister(next: nat, nse: Endpoint) returns (r: Result<Endpoint>)
      requires next <= |handlers|
      modifies crossMap, nse`name
      ensures Reflects(r, nse, InterposeOnRegister(handlers, next, old(crossMap.entries), old(nse.Value())))
      decreases |handlers| - next, 1
    {
      if !IsInterposeName(nse.name) {
        r := NextRegister(next, nse);
        return;
      }
      if !IsValidUrl(nse.url) {
        r := Err(InvalidEndpoint(nse.url));
        return;
      }
      crossMap.Store(nse.name, nse.url);
      r := Ok(nse);
    }

    /** The test handler's `Register`: overwrites the name of the object it got, then forwards it. */
    method TestRegistryRegister(next: nat, nse: Endpoint) returns (r: Result<Endpoint>)
      requires next <= |handlers|
      modifies crossMap, nse`name
      ensures Reflects(r, nse, TestRegistryOnRegister(handlers, next, old(crossMap.entries), old(nse.Value())))
      ensures nse.url == old(nse.url)
      decreases |handlers| - next, 1
    {
      nse.name := CommonResponse;
      r := NextRegister(next, nse);
    }

    /** Runs `Unregister` through the whole chain, starting at its first handler. */
    method Unregister(nse: Endpoint) returns (r: Result<Empty>)
      modifies crossMap
      ensures var s := ChainUnregister(handlers, 0, old(crossMap.entries), nse.Value());
        r == s.result && crossMap.entries == s.crossMap
    {
      r := NextUnregister(0, nse);
    }

    /** Hands `Unregister` to the handler at `cursor`, or to the terminal no-op past the end. */
    method NextUnregister(cursor: nat, nse: Endpoint) returns (r: Result<Empty>)
      requires cursor <= |handlers|
      modifies crossMap
      ensures var s := ChainUnregister(handlers, cursor, old(crossMap.entries), nse.Value());
        r == s.result && crossMap.entries == s.crossMap
      decreases |handlers| - cursor, 0
    {
      if cursor == |handlers| {
        r := Ok(Empty);
      } else {
        match handlers[cursor]
        case Interpose =>
          r := InterposeUnregister(cursor + 1, nse);
        case TestRegistry =>
          r := TestRegistryUnregister(cursor + 1, nse);
      }
    }

    /** The interpose handler's `Unregister`: drops a cross-connect name's entry, forwards other names. */
    method InterposeUnregister(next: nat, nse: Endpoint) returns (r: Result<Empty>)
      requires next <= |handlers|
      modifies crossMap
      ensures var s := InterposeOnUnregister(handlers, next, old(crossMap.entries), nse.Value());
        r == s.result && crossMap.entries == s.crossMap
      decreases |handlers| - next, 1
    {
      if !IsInterposeName(nse.name) {
        r := NextUnregister(next, nse);
        return;
      }
      crossMap.Delete(nse.name);
      r := Ok(Empty);
    }

    /** The test handler's `Unregister` only forwards. */
    method TestRegistryUnregister(next: nat, nse: Endpoint) returns (r: Result<Empty>)
      requires next <= |handlers|
      modifies crossMap
      ensures var s := TestRegistryOnUnregister(handlers, next, old(crossMap.entries), nse.Value());
        r == s.result && crossMap.entries == s.crossMap
      decreases |handlers| - next, 1
    {
      r := NextUnregister(next, nse);
    }
  }
}
