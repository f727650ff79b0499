/**
 * The cross-connect map: endpoint name to URL, shared between the interpose
 * handler and whoever reads it.
 */
module StringUrl {

  type CrossMap = map<string, string>

  class UrlMap {
    var entries: CrossMap

    /** The zero value of the map is empty. */
    constructor ()
      ensures entries == map[]
    {
      entries := map[];
    }

    /** Stores `url` under `name`, replacing any earlier entry for `name`. */
    method Store(name: string, url: string)
      modifies this
      ensures entries == old(entries)[name := url]
    {
      entries := entries[name := url];
    }

    /** Removes the entry for `name`; a missing entry is not an error. */
    method Delete(name: string)
      modifies this
      ensures entries == old(entries) - {name}
    {
      entries := entries - {name};
    }
  }
}
