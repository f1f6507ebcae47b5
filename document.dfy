/** The decoded status document served by the Nginx VTS module, as the collector reads it.

    Every key the collector looks up may be absent from the JSON object, so each such field
    is an `Option`. Objects whose keys the collector iterates (`serverZones`, `upstreamZones`
    and every `responses`) are `Dict`s, which carry the order in which `keys()` yields them:
    that order is arbitrary in Python 2, so the model takes it as part of the input. */
module Document {

  datatype Option<+T> = None | Some(value: T)

  /** A JSON object: its entries, and the order in which its keys are iterated. */
  datatype RawDict<V> = RawDict(keys: seq<string>, at: map<string, V>)

  /** `keys` enumerates the domain of `at`, each key exactly once. */
  predicate WellFormed<V>(d: RawDict<V>) {
    && (forall i, j | 0 <= i < j < |d.keys| :: d.keys[i] != d.keys[j])
    && (forall i | 0 <= i < |d.keys| :: d.keys[i] in d.at)
    && (forall k | k in d.at :: k in d.keys)
  }

  type Dict<V> = d: RawDict<V> | WellFormed(d) witness RawDict([], map[])

  /** One entry of `serverZones`. */
  datatype Zone = Zone(
    requestCounter: Option<int>,
    requestMsec: Option<int>,
    outBytes: Option<int>,
    inBytes: Option<int>,
    responses: Option<Dict<int>>)

  /** One element of the list held by an `upstreamZones` entry. */
  datatype Member = Member(
    server: Option<string>,
    requestCounter: Option<int>,
    requestMsec: Option<int>,
    responseMsec: Option<int>,
    outBytes: Option<int>,
    inBytes: Option<int>,
    down: Option<bool>,
    responses: Option<Dict<int>>)

  /** The root object. `connections` is only ever looked up by fixed keys, so it is a plain map. */
  datatype Status = Status(
    hostName: Option<string>,
    connections: Option<map<string, int>>,
    serverZones: Option<Dict<Zone>>,
    upstreamZones: Option<Dict<seq<Member>>>)

  /** A duplicate-free enumeration has as many elements as the set it enumerates. */
  lemma {:induction false} DistinctCard(ks: seq<string>)
    requires forall i, j | 0 <= i < j < |ks| :: ks[i] != ks[j]
    ensures |set k | k in ks| == |ks|
  {
    if ks != [] {
      var last := ks[|ks| - 1];
      var init := ks[..|ks| - 1];
      DistinctCard(init);
      assert (set k | k in ks) == (set k | k in init) + {last};
      assert last !in init;
    }
  }

  /** Iterating `keys()` visits exactly as many keys as the object has. */
  lemma DictSize<V>(d: Dict<V>)
    ensures |d.keys| == |d.at|
  {
    DistinctCard(d.keys);
    assert d.at.Keys == set k | k in d.keys;
  }
}
