/**
 * What a chain of registry handlers does to one call, as values.
 *
 * A chain is an ordered list of handlers and a cursor into it. The handler
 * at the cursor either answers the call itself or passes it on to the
 * handler after it; once the cursor is past the end, a terminal no-op
 * answers (it returns the endpoint it got, or `Empty` for `Unregister`).
 */
module Pipeline {
  import opened Results
  import opened Endpoints
  import opened StringUrl

  /** The handlers a chain can hold. */
  datatype Handler =
    | Interpose     // the cross-connect detector, working on the chain's cross map
    | TestRegistry  // rewrites the endpoint's name to `CommonResponse` and forwards

  /** The name `TestRegistry` writes into every endpoint it forwards. */
  const CommonResponse: string := "response"

  /**
   * What one call leaves behind: its result, the field values of the
   * endpoint object that was passed in (a handler may have rewritten them in
   * place) and the cross map.
   */
  datatype Step<T> = Step(result: Result<T>, input: Nse, crossMap: CrossMap)

  // ---------------------------------------------------------------- Register

  /** `Register` of `e` handed to the handler at `cursor`, or to the terminal no-op. */
  function ChainRegister(hs: seq<Handler>, cursor: nat, m: CrossMap, e: Nse): Step<Nse>
    requires cursor <= |hs|
    decreases |hs| - cursor, 0
  {
    if cursor == |hs| then Step(Ok(e), e, m)
    else match hs[cursor]
      case Interpose => InterposeOnRegister(hs, cursor + 1, m, e)
      case TestRegistry => TestRegistryOnRegister(hs, cursor + 1, m, e)
  }

  /**
   * The interpose handler; `next` is the cursor of the handler after it.
   * An ordinary name is forwarded untouched. A cross-connect name with a bad
   * URL is refused, with no map change; with a good URL it is recorded and
   * answered at once, without calling the rest of the chain.
   */
  function InterposeOnRegister(hs: seq<Handler>, next: nat, m: CrossMap, e: Nse): Step<Nse>
    requires next <= |hs|
    decreases |hs| - next, 1
  {
    if !IsInterposeName(e.name) then ChainRegister(hs, next, m, e)
    else if !IsValidUrl(e.url) then Step(Err(InvalidEndpoint(e.url)), e, m)
    else Step(Ok(e), e, m[e.name := e.url])
  }

  /** The downstream test handler: overwrites the name in place, then forwards. */
  function TestRegistryOnRegister(hs: seq<Handler>, next: nat, m: CrossMap, e: Nse): Step<Nse>
    requires next <= |hs|
    decreases |hs| - next, 1
  {
    ChainRegister(hs, next, m, e.(name := CommonResponse))
  }

  // -------------------------------------------------------------- Unregister

  /** `Unregister` of `e` handed to the handler at `cursor`, or to the terminal no-op. */
  function ChainUnregister(hs: seq<Handler>, cursor: nat, m: CrossMap, e: Nse): Step<Empty>
    requires cursor <= |hs|
    decreases |hs| - cursor, 0
  {
    if cursor == |hs| then Step(Ok(Empty), e, m)
    else match hs[cursor]
      case Interpose => InterposeOnUnregister(hs, cursor + 1, m, e)
      case TestRegistry => TestRegistryOnUnregister(hs, cursor + 1, m, e)
  }

  /** The interpose handler drops a cross-connect name's entry and answers; other names go on. */
  function InterposeOnUnregister(hs: seq<Handler>, next: nat, m: CrossMap, e: Nse): Step<Empty>
    requires next <= |hs|
    decreases |hs| - next, 1
  {
    if !IsInterposeName(e.name) then ChainUnregister(hs, next, m, e)
    else Step(Ok(Empty), e, m - {e.name})
  }

  /** The downstream test handler forwards `Unregister` unchanged. */
  function TestRegistryOnUnregister(hs: seq<Handler>, next: nat, m: CrossMap, e: Nse): Step<Empty>
    requires next <= |hs|
    decreases |hs| - next, 1
  {
    ChainUnregister(hs, next, m, e)
  }

  // ------------------------------------------------- reference definitions

  /** Whether the interpose handler is the first one to see the call. */
  predicate InterposeFirst(hs: seq<Handler>, cursor: nat)
  {
    cursor < |hs| && hs[cursor] == Interpose
  }

  /**
   * The outcome of `Register` stated without walking the chain: a
   * cross-connect endpoint handed first to the interpose handler is recorded
   * (or refused when its URL is bad); every other endpoint comes back Ok,
   * renamed exactly when some test handler lies ahead of the cursor.
   */
  function ExpectedRegister(hs: seq<Handler>, cursor: nat, m: CrossMap, e: Nse): Step<Nse>
    requires cursor <= |hs|
  {
    if IsInterposeName(e.name) && InterposeFirst(hs, cursor) then
      if IsValidUrl(e.url) then Step(Ok(e), e, m[e.name := e.url])
      else Step(Err(InvalidEndpoint(e.url)), e, m)
    else
      var out := if TestRegistry in hs[cursor..] then e.(name := CommonResponse) else e;
      Step(Ok(out), out, m)
  }

  /**
   * The outcome of `Unregister` stated without walking the chain: it always
   * succeeds, and it removes the endpoint's entry exactly when the name is a
   * cross-connect name and an interpose handler lies ahead of the cursor.
   */
  function ExpectedUnregister(hs: seq<Handler>, cursor: nat, m: CrossMap, e: Nse): Step<Empty>
    requires cursor <= |hs|
  {
    Step(Ok(Empty), e, if IsInterposeName(e.name) && Interpose in hs[cursor..] then m - {e.name} else m)
  }

  // ------------------------------------------------------------------ lemmas

  lemma {:induction false} RegisterMatchesReference(hs: seq<Handler>, cursor: nat, m: CrossMap, e: Nse)
    requires cursor <= |hs|
    ensures ChainRegister(hs, cursor, m, e) == ExpectedRegister(hs, cursor, m, e)
    decreases |hs| - cursor
  {
    if cursor < |hs| {
      assert hs[cursor..] == [hs[cursor]] + hs[cursor + 1..];
      match hs[cursor]
      case Interpose =>
        if !IsInterposeName(e.name) {
          RegisterMatchesReference(hs, cursor + 1, m, e);
        }
      case TestRegistry =>
        PinnedNames();
        RegisterMatchesReference(hs, cursor + 1, m, e.(name := CommonResponse));
    }
  }

  lemma {:induction false} UnregisterMatchesReference(hs: seq<Handler>, cursor: nat, m: CrossMap, e: Nse)
    requires cursor <= |hs|
    ensures ChainUnregister(hs, cursor, m, e) == ExpectedUnregister(hs, cursor, m, e)
    decreases |hs| - cursor
  {
    if cursor < |hs| {
      assert hs[cursor..] == [hs[cursor]] + hs[cursor + 1..];
      match hs[cursor]
      case Interpose =>
        if !IsInterposeName(e.name) {
          UnregisterMatchesReference(hs, cursor + 1, m, e);
        }
      case TestRegistry =>
        UnregisterMatchesReference(hs, cursor + 1, m, e);
    }
  }

  /**
   * A cross-connect endpoint with a good URL that reaches the interpose
   * handler is answered there: what comes back is the endpoint as given
   * (whatever handlers follow), and the map gains exactly its entry.
   */
  lemma CrossConnectShortCircuits(hs: seq<Handler>, cursor: nat, m: CrossMap, e: Nse)
    requires cursor < |hs| && hs[cursor] == Interpose
    requires IsInterposeName(e.name) && IsValidUrl(e.url)
    ensures ChainRegister(hs, cursor, m, e) == Step(Ok(e), e, m[e.name := e.url])
  {
  }

  /** The interpose handler is invisible to an endpoint whose name is not a cross-connect name. */
  lemma OrdinaryPassesThrough(hs: seq<Handler>, cursor: nat, m: CrossMap, e: Nse)
    requires cursor < |hs| && hs[cursor] == Interpose
    requires !IsInterposeName(e.name)
    ensures ChainRegister(hs, cursor, m, e) == ChainRegister(hs, cursor + 1, m, e)
    ensures ChainUnregister(hs, cursor, m, e) == ChainUnregister(hs, cursor + 1, m, e)
  {
  }

  /**
   * `Register` fails exactly for a cross-connect endpoint with a bad URL that
   * reaches the interpose handler; the error names that URL, and a failed
   * call changes neither the map nor the endpoint.
   */
  lemma RegisterFailsOnlyOnInvalidUrl(hs: seq<Handler>, cursor: nat, m: CrossMap, e: Nse)
    requires cursor <= |hs|
    ensures var s := ChainRegister(hs, cursor, m, e);
      && (s.result.Err? <==> IsInterposeName(e.name) && InterposeFirst(hs, cursor) && !IsValidUrl(e.url))
      && (s.result.Err? ==> s.result.error == InvalidEndpoint(e.url) && s.crossMap == m && s.input == e)
  {
    RegisterMatchesReference(hs, cursor, m, e);
  }

  /**
   * A successful `Register` returns the very endpoint object it was given
   * (in its possibly rewritten state), and the map either stays as it was or
   * gains exactly that endpoint's own entry.
   */
  lemma RegisterRecordsOnlyItself(hs: seq<Handler>, cursor: nat, m: CrossMap, e: Nse)
    requires cursor <= |hs|
    ensures var s := ChainRegister(hs, cursor, m, e);
      && (s.result.Ok? ==> s.result.value == s.input)
      && (s.crossMap == m || (s.input == e && s.crossMap == m[e.name := e.url]))
  {
    RegisterMatchesReference(hs, cursor, m, e);
  }

  /**
   * Unregistering what `Register` returned succeeds and leaves the map as it
   * was before the registration, except that a cross-connect name's entry is
   * gone; from an empty map, the map is empty again.
   */
  lemma UnregisterUndoesRegister(hs: seq<Handler>, cursor: nat, m: CrossMap, e: Nse)
    requires cursor <= |hs|
    requires ChainRegister(hs, cursor, m, e).result.Ok?
    ensures var s := ChainRegister(hs, cursor, m, e);
      var u := ChainUnregister(hs, cursor, s.crossMap, s.result.value);
      && u.result == Ok(Empty)
      && u.crossMap == (if IsInterposeName(s.input.name) && Interpose in hs[cursor..] then m - {s.input.name} else m)
      && (m == map[] ==> u.crossMap == map[])
  {
    var s := ChainRegister(hs, cursor, m, e);
    RegisterMatchesReference(hs, cursor, m, e);
    UnregisterMatchesReference(hs, cursor, s.crossMap, s.result.value);
    if cursor < |hs| && hs[cursor] == TestRegistry {
      // The test handler runs first, so what comes back is never a cross-connect name.
      PinnedNames();
      assert TestRegistry in hs[cursor..];
    }
  }
}
