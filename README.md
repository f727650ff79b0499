# Interpose registry handler, modelled in Dafny

This project models one link of a network-service-endpoint (NSE) registry
pipeline: the *interpose* handler and the chain it is composed into. A chain
is an ordered list of handlers. Each handler either answers `Register` /
`Unregister` itself or passes the call on to "the next handler". A terminal
no-op ends the chain: it returns the endpoint it got, or `Empty`.

The interpose handler holds a reference to a cross-connect map from endpoint
name to URL. Its behaviour:

- A name ending in `#interpose-nse` is a cross-connect name.
  - Registering one with a valid URL stores `name -> url` and answers at once, without calling the rest of the chain.
  - Registering one with an invalid URL fails, and the map is left alone.
- Any other name is forwarded unchanged.
- `Unregister` of a cross-connect name removes its entry and succeeds.

The behaviour is the one pinned by the scenario in
`pkg/registry/common/interpose/server_test.go`. That scenario builds the chain
`[interpose handler, testRegistry]`. `testRegistry` overwrites the endpoint's
name with `"response"` on the very object it was handed, then forwards it.

Layout:

- `results.dfy` (`Results`): `Result`, `Option`, `Empty` and the `InvalidEndpoint` error.
- `endpoints.dfy` (`Endpoints`): the endpoint value `Nse`, the mutable `Endpoint` object, the suffix rule `IsInterposeName` and the URL check `IsValidUrl`.
- `stringurl.dfy` (`StringUrl`): the cross map as a class `UrlMap` over a `map<string, string>`.
- `pipeline.dfy` (`Pipeline`): the chain as values.
  - A handler list plus a cursor stands in for the context-carried "next handler".
  - `ChainRegister` / `ChainUnregister` state what a call does.
  - `ExpectedRegister` / `ExpectedUnregister` are closed-form reference definitions, with the lemmas about them.
- `server.dfy` (`Server`): the chain as the program runs it.
  - The `Sequencer` class dispatches by cursor and updates the map and the endpoint object in place.
  - Every method is proved against the matching `Pipeline` function.
- `interpose_test.dfy` (`InterposeTest`): the sample table and the scenario over fresh objects, proved to pass for every sample.

The interpose server, the `next` chaining package and `stringurl.Map` are not
part of this model as source text. Their behaviour here is what the scenario
observes, plus the design in which a cross-connect `Unregister` is answered
by the interpose handler itself.

## Model

| member | source | states |
|---|---|---|
| Endpoints.PinnedNames | pkg/registry/common/interpose/server_test.go:34-36 | `"nse#interpose-nse"` is a cross-connect name; `"nse"` and `"response"` are not |
| StringUrl.UrlMap.constructor | pkg/registry/common/interpose/server_test.go:81 | a freshly declared cross map is empty |
| StringUrl.UrlMap.Store | pkg/registry/common/interpose/server_test.go:96-99 | the map afterwards is the old map with `name -> url` set, and every other entry is kept |
| StringUrl.UrlMap.Delete | pkg/registry/common/interpose/server_test.go:104-107 | the map afterwards is the old map without `name`; a missing name is no error |
| Pipeline.RegisterMatchesReference | pkg/registry/common/interpose/server_test.go:82-85 | walking the chain for `Register` equals the closed form: a cross-connect endpoint that the interpose handler sees first is recorded, or refused on a bad URL; anything else comes back Ok, renamed to `"response"` exactly when a test handler lies ahead |
| Pipeline.UnregisterMatchesReference | pkg/registry/common/interpose/server_test.go:131-133 | walking the chain for `Unregister` always succeeds; it removes the name's entry exactly when the name is a cross-connect name and an interpose handler lies ahead |
| Pipeline.CrossConnectShortCircuits | pkg/registry/common/interpose/server_test.go:52-55 | at the interpose handler, a cross-connect endpoint with a good URL is answered with itself unchanged, whatever handlers follow; the map gains exactly its entry |
| Pipeline.OrdinaryPassesThrough | pkg/registry/common/interpose/server_test.go:58-66 | for a name that is not a cross-connect name, the interpose handler's `Register` and `Unregister` equal those of the rest of the chain |
| Pipeline.RegisterFailsOnlyOnInvalidUrl | pkg/registry/common/interpose/server_test.go:67-74 | `Register` fails if and only if a cross-connect endpoint with a bad URL reaches the interpose handler; the error names the URL; after a failure the map and the endpoint are unchanged |
| Pipeline.RegisterRecordsOnlyItself | pkg/registry/common/interpose/server_test.go:96-101 | a successful `Register` returns the endpoint object it was given; the map is either unchanged or gains exactly that endpoint's own entry |
| Pipeline.UnregisterUndoesRegister | pkg/registry/common/interpose/server_test.go:104-107 | unregistering what `Register` returned succeeds; it restores the map to its state before registration, minus a cross-connect name's entry; from an empty map the result is empty again |
| Server.Sequencer.constructor | pkg/registry/common/interpose/server_test.go:82-85 | the sequencer holds the given handler list and the interpose handler's map |
| Server.Sequencer.Register | pkg/registry/common/interpose/server_test.go:87 | the result, the endpoint object's fields and the map afterwards are those of `ChainRegister` from the first handler; an Ok result is the same object passed in |
| Server.Sequencer.NextRegister | pkg/registry/common/interpose/server_test.go:128 | dispatching to the handler at the cursor, or the terminal no-op past the end, has the effect `ChainRegister` gives from that cursor |
| Server.Sequencer.InterposeRegister | pkg/registry/common/interpose/server_test.go:46-74 | the interpose handler's `Register`: store and answer, refuse, or forward, as `InterposeOnRegister` says |
| Server.Sequencer.TestRegistryRegister | pkg/registry/common/interpose/server_test.go:126-129 | overwrites only the name of the object it was handed, then forwards that same object; the URL is untouched |
| Server.Sequencer.Unregister | pkg/registry/common/interpose/server_test.go:104-105 | the result and the map afterwards are those of `ChainUnregister` from the first handler; the endpoint object is not modified |
| Server.Sequencer.NextUnregister | pkg/registry/common/interpose/server_test.go:132 | dispatching `Unregister` at the cursor has the effect `ChainUnregister` gives from there |
| Server.Sequencer.InterposeUnregister | pkg/registry/common/interpose/server_test.go:104-107 | the interpose handler's `Unregister` deletes a cross-connect name's entry and answers; other names are forwarded |
| Server.Sequencer.TestRegistryUnregister | pkg/registry/common/interpose/server_test.go:131-133 | the test handler's `Unregister` forwards unchanged |
| InterposeTest.RequireCrossMapEqual | pkg/registry/common/interpose/server_test.go:113-120 | the entry-by-entry copy of the map equals `expected` if and only if the map's contents equal `expected` |
| InterposeTest.RunSample | pkg/registry/common/interpose/server_test.go:80-108 | one sample run on a fresh map and chain passes if and only if the sample's demands hold of the chain's steps |
| InterposeTest.InterposeSample | pkg/registry/common/interpose/server_test.go:46-57 | on an empty map, `nse#interpose-nse` with `tcp://0.0.0.0` comes back unchanged; the map is exactly that one entry; unregistering it succeeds and empties the map |
| InterposeTest.CommonSample | pkg/registry/common/interpose/server_test.go:58-66 | on an empty map, `nse` comes back named `response`; the map stays empty through `Register` and `Unregister` |
| InterposeTest.InvalidSample | pkg/registry/common/interpose/server_test.go:67-74 | on an empty map, `nse#interpose-nse` with an empty URL fails with `InvalidEndpoint`; the map stays empty |
| InterposeTest.AllSamplesPass | pkg/registry/common/interpose/server_test.go:41-75 | every row of the sample table passes |
| InterposeTest.TestInterposeRegistryServer | pkg/registry/common/interpose/server_test.go:77-111 | running every sample in turn passes |

## Left out

- URL parsing is not modelled. `IsValidUrl` accepts any non-empty string and the map stores the URL string, not a parsed URL. The scenario pins only `"tcp://0.0.0.0"` as valid and `""` as invalid, and the lemmas claim nothing else about URLs.
- The suffix rule `IsInterposeName` is "ends with `#interpose-nse`". The scenario pins only `"nse#interpose-nse"` (cross-connect) and `"nse"` (ordinary).
- Concurrency: the cross map is a plain sequential map. Concurrent callers and the thread safety of `stringurl.Map` are out of scope.
- Range mechanics: `stringurl.Map.Range` with a callback is not modelled. For the one use that matters, `RequireCrossMapEqual` visits the keys in an unspecified order. `Load` is not modelled because nothing in the scenario uses it.
- The context-based `next` dispatch is replaced by an explicit handler list and cursor. Context values and cancellation are not modelled.
- Each chain owns one cross map, shared by every interpose handler in that chain. Chains whose interpose handlers hold different maps are not modelled.
- `Server.Sequencer.InterposeUnregister`: the scenario does not show whether a cross-connect `Unregister` also reaches later handlers. The model answers it at the interpose handler, which matches the design's symmetry with `Register`.
- Error text: the error carries only the offending URL, not a message.
- Endpoint fields other than name and URL are not modelled. The protobuf `String()` comparison becomes value equality on `Nse`.
- `require` in the scenario stops at the first failed assertion. `RunSample` instead combines all checks into one verdict, which gives the same pass/fail answer.
