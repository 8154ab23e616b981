/** The mutable map under the connection cache and the response cache. */
module CacheWrapper {
  import opened Tables

  class CacheWrapper<T> {
    var entries: map<string, T>

    constructor ()
      ensures entries == map[]
    {
      entries := map[];
    }

    method Set(key: string, value: T)
      modifies this
      ensures entries == old(entries)[key := value]
    {
      entries := entries[key := value];
    }

    method Get(key: string) returns (r: Option<T>)
      ensures key in entries ==> r == Some(entries[key])
      ensures r.None? <==> key !in entries
    {
      r := if key in entries then Some(entries[key]) else None;
    }

    method Has(key: string) returns (r: bool)
      ensures r <==> key in entries
    {
      r := key in entries;
    }

    method Delete(key: string)
      modifies this
      ensures entries == old(entries) - {key}
    {
      entries := entries - {key};
    }

    method Clear()
      modifies this
      ensures entries == map[]
    {
      entries := map[];
    }
  }
}
