/**
 * Network service endpoints and the cross-connect naming convention.
 */
module Endpoints {

  /** The reserved name suffix that marks a cross-connect (interpose) endpoint. */
  const InterposeSuffix: string := "#interpose-nse"

  /** The fields of an endpoint the handlers look at. */
  datatype Nse = Nse(name: string, url: string)

  /** A name is a cross-connect name when it ends with the reserved suffix. */
  predicate IsInterposeName(name: string)
  {
    |InterposeSuffix| <= |name| && name[|name| - |InterposeSuffix|..] == InterposeSuffix
  }

  /**
   * Stand-in for "the URL parses": the empty URL is refused, a non-empty one
   * such as "tcp://0.0.0.0" is accepted.
   */
  predicate IsValidUrl(url: string)
  {
    url != ""
  }

  /** The two names the scenario pins: only the suffixed one is a cross-connect name. */
  lemma PinnedNames()
    ensures IsInterposeName("nse" + InterposeSuffix)
    ensures !IsInterposeName("nse")
    ensures !IsInterposeName("response")
  {
    assert ("nse" + InterposeSuffix)[3..] == InterposeSuffix;
  }

  /**
   * An endpoint object as passed by pointer through the chain: a handler may
   * overwrite its fields in place, and what `Register` returns may be the
   * very object it was given.
   */
  class Endpoint {
    var name: string
    var url: string

    constructor (name: string, url: string)
      ensures this.name == name && this.url == url
    {
      this.name := name;
      this.url := url;
    }

    /** The current field values of this object. */
    function Value(): Nse
      reads this
    {
      Nse(name, url)
    }
  }
}
