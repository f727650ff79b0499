/**
 * The interpose registry scenario: a table of samples, each run against a
 * fresh empty cross map and the chain [interpose handler, test handler].
 */
module InterposeTest {
  import opened Results
  import opened Endpoints
  import opened StringUrl
  import opened Pipeline
  import opened Server

  const NameSuffix: string := "#interpose-nse"
  const BaseName: string := "nse"
  const ValidUrl: string := "tcp://0.0.0.0"

  /** One row of the table: what goes in, what must come out, and how the map must look. */
  datatype Sample = Sample(name: string, input: Nse, out: Option<Nse>, isInMap: bool, failure: bool)

  const Samples: seq<Sample> := [
    Sample("interpose NSE", Nse(BaseName + NameSuffix, ValidUrl), Some(Nse(BaseName + NameSuffix, ValidUrl)), true, false),
    Sample("common NSE", Nse(BaseName, ""), Some(Nse(CommonResponse, "")), false, false),
    Sample("invalid NSE", Nse(BaseName + NameSuffix, ""), None, false, true)
  ]

  /** The chain under test: the interpose handler, then the test handler. */
  const TestChain: seq<Handler> := [Interpose, TestRegistry]

  /**
   * What a sample demands, stated over the chain's steps. A failing sample
   * needs an error and an empty map. Otherwise `Register` must succeed with
   * the expected endpoint, and the map must hold just the endpoint object's
   * entry (for an interpose sample) or be empty. Then `Unregister` of what
   * came back must succeed and leave the map empty.
   */
  ghost predicate SamplePasses(sample: Sample)
  {
    var reg := ChainRegister(TestChain, 0, map[], sample.input);
    if sample.failure then
      reg.result.Err? && reg.crossMap == map[]
    else
      && reg.result.Ok?
      && Some(reg.result.value) == sample.out
      && reg.crossMap == (if sample.isInMap then map[reg.input.name := reg.input.url] else map[])
      && var unreg := ChainUnregister(TestChain, 0, reg.crossMap, reg.result.value);
         unreg.result.Ok? && unreg.crossMap == map[]
  }

  /** Copies the map entry by entry, as a range over it would, and compares the copy with `expected`. */
  method RequireCrossMapEqual(expected: CrossMap, crossMap: UrlMap) returns (equal: bool)
    ensures equal <==> crossMap.entries == expected
  {
    var actual: CrossMap := map[];
    var pending := crossMap.entries.Keys;
    while pending != {}
      invariant pending <= crossMap.entries.Keys
      invariant actual.Keys == crossMap.entries.Keys - pending
      invariant forall k :: k in actual ==> actual[k] == crossMap.entries[k]
      decreases pending
    {
      var key :| key in pending;
      actual := actual[key := crossMap.entries[key]];
      pending := pending - {key};
    }
    equal := actual == expected;
  }

  /** Runs one sample on a fresh empty map and a fresh chain; passes exactly when the sample's demands hold. */
  method RunSample(sample: Sample) returns (passed: bool)
    ensures passed <==> SamplePasses(sample)
  {
    var crossMap := new UrlMap();
    var server := new Sequencer(TestChain, crossMap);
    var nse := new Endpoint(sample.input.name, sample.input.url);
    var reg := server.Register(nse);
    if sample.failure {
      var empty := RequireCrossMapEqual(map[], crossMap);
      passed := reg.Err? && empty;
    } else if reg.Err? {
      passed := false;
    } else {
      var out := reg.value;
      var same := Some(out.Value()) == sample.out;
      var stored := RequireCrossMapEqual(if sample.isInMap then map[nse.name := nse.url] else map[], crossMap);
      var unreg := server.Unregister(out);
      var cleared := RequireCrossMapEqual(map[], crossMap);
      passed := same && stored && unreg.Ok? && cleared;
    }
  }

  /** "interpose NSE": recorded, answered unchanged (the test handler never ran), then removed. */
  lemma InterposeSample()
    ensures var e := Nse("nse#interpose-nse", "tcp://0.0.0.0");
      var reg := ChainRegister(TestChain, 0, map[], e);
      && reg == Step(Ok(e), e, map["nse#interpose-nse" := "tcp://0.0.0.0"])
      && ChainUnregister(TestChain, 0, reg.crossMap, e) == Step(Ok(Empty), e, map[])
  {
    PinnedNames();
  }

  /** "common NSE": forwarded to the test handler, which renames it; the map is never touched. */
  lemma CommonSample()
    ensures var e := Nse("nse", "");
      var out := Nse("response", "");
      var reg := ChainRegister(TestChain, 0, map[], e);
      && reg == Step(Ok(out), out, map[])
      && ChainUnregister(TestChain, 0, reg.crossMap, out) == Step(Ok(Empty), out, map[])
  {
    PinnedNames();
  }

  /** "invalid NSE": a cross-connect name with an empty URL is refused and the map stays empty. */
  lemma InvalidSample()
    ensures var e := Nse("nse#interpose-nse", "");
      ChainRegister(TestChain, 0, map[], e) == Step(Err(InvalidEndpoint("")), e, map[])
  {
    PinnedNames();
  }

  lemma AllSamplesPass()
    ensures forall i :: 0 <= i < |Samples| ==> SamplePasses(Samples[i])
  {
    InterposeSample();
    CommonSample();
    InvalidSample();
  }

  /** Runs every sample of the table; all of them pass. */
  method TestInterposeRegistryServer() returns (passed: bool)
    ensures passed
  {
    AllSamplesPass();
    passed := true;
    for i := 0 to |Samples|
      invariant passed
    {
      var ok := RunSample(Samples[i]);
      passed := passed && ok;
    }
  }
}
