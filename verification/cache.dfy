/** `CacheProvider` (app/utilities.py), the implementation of the
    `ICacheProvider` contract (app/interfaces.py), over a key-value store.

    The store is the Redis client's view: each key holds the decoded text
    it was set to and the expiry (in seconds) it was set with. Expiry itself
    is not modelled: an entry stays until it is overwritten. JSON encoding
    and decoding are a pair of functions supplied by the caller. */
module Cache {
  import opened Wrappers
  import opened Errors
  import opened Json

  /** The expiry a provider uses when none is given. */
  const DefaultCacheExpire: int := 3600

  /** One stored key: its value and the `ex` it was written with. */
  datatype Entry = Entry(value: string, ex: int)

  /** A provider bound to a store; `cacheExpire` is used for every write. */
  datatype CacheProvider = CacheProvider(client: map<string, Entry>, cacheExpire: int)

  /** `json.dumps` and `json.loads`; `loads` yields `None` on text that is
      not JSON. */
  datatype JsonCodec = JsonCodec(dumps: Json -> string, loads: string -> Option<Json>)

  /** What the model assumes of the JSON library: decoding an encoding gives
      the value back, and no encoding is the empty text. */
  ghost predicate Inverse(codec: JsonCodec) {
    forall v :: codec.loads(codec.dumps(v)) == Some(v) && codec.dumps(v) != ""
  }

  /** Every entry carries the provider's expiry. */
  ghost predicate UniformExpiry(c: CacheProvider) {
    forall k :: k in c.client ==> c.client[k].ex == c.cacheExpire
  }

  /** `CacheProvider(cache_client)`: a provider with the default expiry. */
  function NewCacheProvider(client: map<string, Entry>): (c: CacheProvider)
    ensures c.client == client
    ensures c.cacheExpire == 3600
    ensures client == map[] ==> UniformExpiry(c)
  {
    CacheProvider(client, DefaultCacheExpire)
  }

  /** The raw read of the client: missing keys give `None`. */
  function Read(c: CacheProvider, key: string): (r: Option<string>)
    ensures r.Some? <==> key in c.client
    ensures r.Some? ==> r.value == c.client[key].value
  {
    if key in c.client then Some(c.client[key].value) else None
  }

  /** The client's unconditional overwrite `set(name, value, ex)`. */
  function Write(c: CacheProvider, key: string, value: string): (c': CacheProvider)
    ensures c'.cacheExpire == c.cacheExpire
    ensures c'.client.Keys == c.client.Keys + {key}
    ensures c'.client[key] == Entry(value, c.cacheExpire)
    ensures forall k :: k in c.client && k != key ==> c'.client[k] == c.client[k]
    ensures UniformExpiry(c) ==> UniformExpiry(c')
  {
    c.(client := c.client[key := Entry(value, c.cacheExpire)])
  }

  /** `get_str`: the stored text, or `None` when the key is missing or its
      text is empty (the empty text is falsy). */
  function GetStr(c: CacheProvider, key: string): (r: Option<string>)
    ensures r.Some? <==> key in c.client && c.client[key].value != ""
    ensures r.Some? ==> r.value == c.client[key].value
  {
    match Read(c, key)
    case Some(v) => if v != "" then Some(v) else None
    case None => None
  }

  /** `get_json`: the decoded stored text, `None` when the key is missing or
      its text is empty, and the decoder's exception on text that is not
      JSON. A stored JSON `null` decodes to Python's `None`, so it reads the
      same as a miss. */
  function GetJson(c: CacheProvider, key: string, codec: JsonCodec): (r: Result<Option<Json>, Error>)
    ensures key !in c.client ==> r == Success(None)
    ensures key in c.client && c.client[key].value == "" ==> r == Success(None)
    ensures r.Success? && r.value.Some? ==>
              key in c.client && codec.loads(c.client[key].value) == r.value && r.value.value != JNull
    ensures r.Failure? <==> key in c.client && c.client[key].value != "" && codec.loads(c.client[key].value).None?
    ensures r.Failure? ==> r.error == JsonDecodeError
    ensures key in c.client && c.client[key].value != "" && codec.loads(c.client[key].value).Some? ==>
              var j := codec.loads(c.client[key].value).value;
              r == Success(if j == JNull then None else Some(j))
  {
    match Read(c, key)
    case Some(v) =>
      if v != "" then
        match codec.loads(v)
        case Some(j) => if j == JNull then Success(None) else Success(Some(j))
        case None => Failure(JsonDecodeError)
      else
        Success(None)
    case None => Success(None)
  }

  /** `store_str`: overwrite `key` with `value` under the provider's expiry. */
  function StoreStr(c: CacheProvider, key: string, value: string): (c': CacheProvider)
    ensures c'.cacheExpire == c.cacheExpire
    ensures c'.client.Keys == c.client.Keys + {key}
    ensures c'.client[key] == Entry(value, c.cacheExpire)
    ensures forall k :: k in c.client && k != key ==> c'.client[k] == c.client[k]
    ensures UniformExpiry(c) ==> UniformExpiry(c')
  {
    Write(c, key, value)
  }

  /** `store_json`: overwrite `key` with the encoding of `value` under the
      provider's expiry. */
  function StoreJson(c: CacheProvider, key: string, value: Json, codec: JsonCodec): (c': CacheProvider)
    ensures c'.cacheExpire == c.cacheExpire
    ensures c'.client.Keys == c.client.Keys + {key}
    ensures c'.client[key] == Entry(codec.dumps(value), c.cacheExpire)
    ensures forall k :: k in c.client && k != key ==> c'.client[k] == c.client[k]
    ensures UniformExpiry(c) ==> UniformExpiry(c')
  {
    Write(c, key, codec.dumps(value))
  }

  /** Absence is a value, not an error, for both readers. */
  lemma AbsentKeyReadsNone(c: CacheProvider, key: string, codec: JsonCodec)
    requires key !in c.client
    ensures GetStr(c, key) == None
    ensures GetJson(c, key, codec) == Success(None)
  {
  }

  /** A stored text reads back, except the empty text, which reads back as
      absent. */
  lemma StoreStrThenGetStr(c: CacheProvider, key: string, value: string)
    ensures GetStr(StoreStr(c, key, value), key) == if value == "" then None else Some(value)
  {
  }

  /** Writing one key leaves what every other key reads unchanged. */
  lemma StoreStrKeepsOtherKeys(c: CacheProvider, key: string, value: string, other: string)
    requires other != key
    ensures GetStr(StoreStr(c, key, value), other) == GetStr(c, other)
  {
  }

  /** A stored JSON value reads back as itself, except `null`, which reads
      back as `None`, the same as a miss. */
  lemma StoreJsonThenGetJson(c: CacheProvider, key: string, value: Json, codec: JsonCodec)
    requires Inverse(codec)
    ensures GetJson(StoreJson(c, key, value, codec), key, codec) == if value == JNull then Success(None) else Success(Some(value))
  {
    assert codec.loads(codec.dumps(value)) == Some(value) && codec.dumps(value) != "";
  }

  /** A stored JSON value reads back as its encoding through `get_str`. */
  lemma StoreJsonThenGetStr(c: CacheProvider, key: string, value: Json, codec: JsonCodec)
    requires Inverse(codec)
    ensures GetStr(StoreJson(c, key, value, codec), key) == Some(codec.dumps(value))
  {
    assert codec.dumps(value) != "";
  }

  /** One cache write: `store_str` or `store_json`. */
  datatype CacheWrite =
    | StrWrite(key: string, text: string)
    | JsonWrite(key: string, json: Json)

  /** Applies one write to the provider. */
  function Apply(c: CacheProvider, w: CacheWrite, codec: JsonCodec): (c': CacheProvider)
    ensures c'.cacheExpire == c.cacheExpire
    ensures c'.client.Keys == c.client.Keys + {w.key}
    ensures UniformExpiry(c) ==> UniformExpiry(c')
  {
    match w
    case StrWrite(key, text) => StoreStr(c, key, text)
    case JsonWrite(key, json) => StoreJson(c, key, json, codec)
  }

  /** The writes applied in order. */
  function StoreAll(c: CacheProvider, writes: seq<CacheWrite>, codec: JsonCodec): (c': CacheProvider)
    ensures c'.cacheExpire == c.cacheExpire
    decreases |writes|
  {
    if |writes| == 0 then c
    else Apply(StoreAll(c, writes[..|writes| - 1], codec), writes[|writes| - 1], codec)
  }

  /** Starting from an empty store with the default expiry, any sequence of
      `store_str` and `store_json` writes leaves every entry with expiry
      3600, and the keys held are exactly the keys written. */
  lemma {:induction false} WritesUseDefaultExpiry(writes: seq<CacheWrite>, codec: JsonCodec)
    ensures var c := StoreAll(NewCacheProvider(map[]), writes, codec);
            && UniformExpiry(c) && c.cacheExpire == 3600
            && c.client.Keys == set i | 0 <= i < |writes| :: writes[i].key
    decreases |writes|
  {
    if |writes| > 0 {
      var init := writes[..|writes| - 1];
      WritesUseDefaultExpiry(init, codec);
      assert (set i | 0 <= i < |writes| :: writes[i].key)
          == (set i | 0 <= i < |init| :: init[i].key) + {writes[|writes| - 1].key};
    }
  }
}
