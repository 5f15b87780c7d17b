/**
 * `parse_crypto_pools(json_payload)`: one flat record of eleven fields per pool of the payload,
 * read from fixed paths under the pool's `attributes`, with the two price changes decoded from
 * their JSON strings.
 */
module Pools {
  import opened Results
  import opened PyDict
  import opened Json

  /** One parsed pool; every field is the Python value stored under the key of the same name. */
  datatype PoolInfo = PoolInfo(
    address: Json,
    name: Json,
    poolCreatedAt: Json,
    fdvUsd: Json,
    marketCapUsd: Json,
    volumeUsdH1: Json,
    volumeUsdH24: Json,
    priceChangePercentageH1: Json,
    priceChangePercentageH24: Json,
    transactionsH1Buys: Json,
    transactionsH1Sells: Json)

  /** The keys of the record literal, in the order written. */
  const RecordKeys: seq<string> := [
    "address", "name", "pool_created_at", "fdv_usd", "market_cap_usd", "volume_usd_h1",
    "volume_usd_h24", "price_change_percentage_h1", "price_change_percentage_h24",
    "transactions_h1_buys", "transactions_h1_sells"]

  /** The record as the Python dict the function appends. */
  function AsDict(p: PoolInfo): (d: Items<Json>)
    ensures Keys(d) == RecordKeys
  {
    [("address", p.address), ("name", p.name), ("pool_created_at", p.poolCreatedAt),
     ("fdv_usd", p.fdvUsd), ("market_cap_usd", p.marketCapUsd),
     ("volume_usd_h1", p.volumeUsdH1), ("volume_usd_h24", p.volumeUsdH24),
     ("price_change_percentage_h1", p.priceChangePercentageH1),
     ("price_change_percentage_h24", p.priceChangePercentageH24),
     ("transactions_h1_buys", p.transactionsH1Buys), ("transactions_h1_sells", p.transactionsH1Sells)]
  }

  /** Every record has exactly the eleven keys of the literal, each once. */
  lemma RecordHasElevenKeys(p: PoolInfo)
    ensures |AsDict(p)| == 11 && DistinctKeys(AsDict(p))
    ensures forall k :: HasKey(AsDict(p), k) <==> k in RecordKeys
  {
    var d := AsDict(p);
    assert Keys(d) == RecordKeys;
    forall k
      ensures HasKey(d, k) <==> k in RecordKeys
    {
      if HasKey(d, k) {
        assert Keys(d)[IndexOf(d, k)] == k;
      }
      if k in RecordKeys {
        var i :| 0 <= i < |RecordKeys| && RecordKeys[i] == k;
        assert d[i].0 == k;
      }
    }
  }

  /** `v.get(key)` with no default: None when the dict lacks the key; only dicts have `.get`. */
  function GetOrNone(v: Json, key: string): (r: Result<Json>)
    ensures r.Ok? <==> v.JObj?
    ensures v.JObj? && !HasKey(v.members, key) ==> r == Ok(JNull)
    ensures v.JObj? && HasKey(v.members, key) ==> Some(r.value) == Get(v.members, key)
  {
    match v
    case JObj(m) => Ok(Get(m, key).GetOr(JNull))
    case _ => Err(AttributeError)
  }

  /** `json.loads(v)`: `decode` is the decoder, left abstract; it fails on text that is not JSON.
      Only a string can be decoded. */
  function Loads(v: Json, decode: string -> Option<Json>): (r: Result<Json>)
    ensures v.JStr? && decode(v.s).Some? ==> r == Ok(decode(v.s).value)
    ensures v.JStr? && decode(v.s).None? ==> r == Err(JSONDecodeError)
    ensures !v.JStr? ==> r == Err(TypeError)
  {
    match v
    case JStr(s) =>
      (match decode(s)
       case Some(x) => Ok(x)
       case None => Err(JSONDecodeError))
    case _ => Err(TypeError)
  }

  /** The value at `path` exists and is a string `json.loads` accepts. */
  predicate Decodes(a: Json, path: seq<string>, decode: string -> Option<Json>) {
    At(a, path).Ok? && Loads(At(a, path).value, decode).Ok?
  }

  /** One subscript, then the rest of the path. */
  lemma AtCons(v: Json, k: string, p: seq<string>)
    ensures At(v, [k] + p) == if Subscript(v, k).Err? then Err(Subscript(v, k).error) else At(Subscript(v, k).value, p)
  {
    assert ([k] + p)[1..] == p;
  }

  lemma AtOne(v: Json, k: string)
    ensures At(v, [k]) == Subscript(v, k)
  {
    AtCons(v, k, []);
    assert [k] + [] == [k];
  }

  lemma AtTwo(v: Json, k1: string, k2: string)
    ensures At(v, [k1, k2]) == if Subscript(v, k1).Err? then Err(Subscript(v, k1).error) else Subscript(Subscript(v, k1).value, k2)
  {
    AtCons(v, k1, [k2]);
    assert [k1] + [k2] == [k1, k2];
    if Subscript(v, k1).Ok? {
      AtOne(Subscript(v, k1).value, k2);
    }
  }

  lemma AtThree(v: Json, k1: string, k2: string, k3: string)
    ensures At(v, [k1, k2, k3]) == if Subscript(v, k1).Err? then Err(Subscript(v, k1).error) else At(Subscript(v, k1).value, [k2, k3])
  {
    AtCons(v, k1, [k2, k3]);
    assert [k1] + [k2, k3] == [k1, k2, k3];
  }

  /** The first three entries: `attributes['address']`, `['name']`, `['pool_created_at']`.  Once
      they succeed, `attributes` is a dict. */
  function Identity(a: Json): (r: Result<(Json, Json, Json)>)
    ensures r.Ok? <==> At(a, ["address"]).Ok? && At(a, ["name"]).Ok? && At(a, ["pool_created_at"]).Ok?
    ensures r.Ok? ==>
      && Ok(r.value.0) == At(a, ["address"])
      && Ok(r.value.1) == At(a, ["name"])
      && Ok(r.value.2) == At(a, ["pool_created_at"])
      && a.JObj?
  {
    AtOne(a, "address");
    AtOne(a, "name");
    AtOne(a, "pool_created_at");
    var address :- Subscript(a, "address");
    var name :- Subscript(a, "name");
    var created :- Subscript(a, "pool_created_at");
    Ok((address, name, created))
  }

  /** `attributes['volume_usd']['h1']` and `['h24']`. */
  function Volumes(a: Json): (r: Result<(Json, Json)>)
    ensures r.Ok? <==> At(a, ["volume_usd", "h1"]).Ok? && At(a, ["volume_usd", "h24"]).Ok?
    ensures r.Ok? ==> Ok(r.value.0) == At(a, ["volume_usd", "h1"]) && Ok(r.value.1) == At(a, ["volume_usd", "h24"])
  {
    AtTwo(a, "volume_usd", "h1");
    AtTwo(a, "volume_usd", "h24");
    var volume :- Subscript(a, "volume_usd");
    var h1 :- Subscript(volume, "h1");
    var h24 :- Subscript(volume, "h24");
    Ok((h1, h24))
  }

  /** `json.loads(attributes['price_change_percentage']['h1'])` and the same for `h24`. */
  function Prices(a: Json, decode: string -> Option<Json>): (r: Result<(Json, Json)>)
    ensures r.Ok? <==> Decodes(a, ["price_change_percentage", "h1"], decode) && Decodes(a, ["price_change_percentage", "h24"], decode)
    ensures r.Ok? ==>
      && Ok(r.value.0) == Loads(At(a, ["price_change_percentage", "h1"]).value, decode)
      && Ok(r.value.1) == Loads(At(a, ["price_change_percentage", "h24"]).value, decode)
  {
    AtTwo(a, "price_change_percentage", "h1");
    AtTwo(a, "price_change_percentage", "h24");
    var change :- Subscript(a, "price_change_percentage");
    var h1 :- Subscript(change, "h1");
    var p1 :- Loads(h1, decode);
    var h24 :- Subscript(change, "h24");
    var p24 :- Loads(h24, decode);
    Ok((p1, p24))
  }

  /** `attributes['transactions']['h1']['buys']` and `['sells']`. */
  function Counts(a: Json): (r: Result<(Json, Json)>)
    ensures r.Ok? <==> At(a, ["transactions", "h1", "buys"]).Ok? && At(a, ["transactions", "h1", "sells"]).Ok?
    ensures r.Ok? ==>
      && Ok(r.value.0) == At(a, ["transactions", "h1", "buys"])
      && Ok(r.value.1) == At(a, ["transactions", "h1", "sells"])
  {
    AtThree(a, "transactions", "h1", "buys");
    AtThree(a, "transactions", "h1", "sells");
    var tx :- Subscript(a, "transactions");
    AtTwo(tx, "h1", "buys");
    AtTwo(tx, "h1", "sells");
    var window :- Subscript(tx, "h1");
    var buys :- Subscript(window, "buys");
    var sells :- Subscript(window, "sells");
    Ok((buys, sells))
  }

  /** The dict literal evaluated entry by entry on `pool['attributes']`, in the order written: the
      first entry that raises makes the whole record fail. */
  function FromAttributes(a: Json, decode: string -> Option<Json>): Result<PoolInfo> {
    var ids :- Identity(a);
    var fdv :- GetOrNone(a, "fdv_usd");
    var cap :- GetOrNone(a, "market_cap_usd");
    var volumes :- Volumes(a);
    var prices :- Prices(a, decode);
    var counts :- Counts(a);
    Ok(PoolInfo(ids.0, ids.1, ids.2, fdv, cap, volumes.0, volumes.1, prices.0, prices.1, counts.0, counts.1))
  }

  /** The record for one pool; every entry of the literal starts from `pool['attributes']`. */
  function ExtractPool(pool: Json, decode: string -> Option<Json>): Result<PoolInfo> {
    var attrs :- Subscript(pool, "attributes");
    FromAttributes(attrs, decode)
  }

  /** Every path the literal subscripts without a default resolves. */
  predicate HasRequired(a: Json) {
    && At(a, ["address"]).Ok? && At(a, ["name"]).Ok? && At(a, ["pool_created_at"]).Ok?
    && At(a, ["volume_usd", "h1"]).Ok? && At(a, ["volume_usd", "h24"]).Ok?
    && At(a, ["price_change_percentage", "h1"]).Ok? && At(a, ["price_change_percentage", "h24"]).Ok?
    && At(a, ["transactions", "h1", "buys"]).Ok? && At(a, ["transactions", "h1", "sells"]).Ok?
  }

  /** A record exists exactly when every required path resolves and both price strings decode; the
      copied fields are the values at their paths, the optional ones None when absent, and the
      prices the decodings of their strings. */
  lemma FromAttributesSpec(a: Json, decode: string -> Option<Json>)
    ensures FromAttributes(a, decode).Ok? <==>
      && HasRequired(a)
      && Decodes(a, ["price_change_percentage", "h1"], decode)
      && Decodes(a, ["price_change_percentage", "h24"], decode)
    ensures FromAttributes(a, decode).Ok? ==>
      var r := FromAttributes(a, decode).value;
      && Ok(r.address) == At(a, ["address"])
      && Ok(r.name) == At(a, ["name"])
      && Ok(r.poolCreatedAt) == At(a, ["pool_created_at"])
      && Ok(r.volumeUsdH1) == At(a, ["volume_usd", "h1"])
      && Ok(r.volumeUsdH24) == At(a, ["volume_usd", "h24"])
      && Ok(r.transactionsH1Buys) == At(a, ["transactions", "h1", "buys"])
      && Ok(r.transactionsH1Sells) == At(a, ["transactions", "h1", "sells"])
      && Ok(r.priceChangePercentageH1) == Loads(At(a, ["price_change_percentage", "h1"]).value, decode)
      && Ok(r.priceChangePercentageH24) == Loads(At(a, ["price_change_percentage", "h24"]).value, decode)
    ensures FromAttributes(a, decode).Ok? ==>
      var r := FromAttributes(a, decode).value;
      && a.JObj?
      && r.fdvUsd == (if HasKey(a.members, "fdv_usd") then Get(a.members, "fdv_usd").value else JNull)
      && r.marketCapUsd == (if HasKey(a.members, "market_cap_usd") then Get(a.members, "market_cap_usd").value else JNull)
  {
  }

  /** The value of `pool['attributes'].get(key)`, when `pool['attributes']` is a dict. */
  function Optional(pool: Json, key: string): Json {
    var v := At(pool, ["attributes", key]);
    if v.Ok? then v.value else JNull
  }

  /** The same, for a whole pool: a record exists exactly when `pool['attributes']` exists and
      the record can be read from it.  Every field is then the value at its full path from the
      pool, the optional ones None when absent, and the prices the decodings of their strings. */
  lemma ExtractPoolSpec(pool: Json, decode: string -> Option<Json>)
    ensures var r := ExtractPool(pool, decode);
      var attrs := Subscript(pool, "attributes");
      && (attrs.Err? ==> r == Err(attrs.error))
      && (attrs.Ok? ==>
            (r.Ok? <==> HasRequired(attrs.value) && Decodes(attrs.value, ["price_change_percentage", "h1"], decode)
                                                 && Decodes(attrs.value, ["price_change_percentage", "h24"], decode)))
    ensures var r := ExtractPool(pool, decode);
      r.Ok? ==>
        && Ok(r.value.address) == At(pool, ["attributes", "address"])
        && Ok(r.value.name) == At(pool, ["attributes", "name"])
        && Ok(r.value.poolCreatedAt) == At(pool, ["attributes", "pool_created_at"])
        && r.value.fdvUsd == Optional(pool, "fdv_usd")
        && r.value.marketCapUsd == Optional(pool, "market_cap_usd")
        && Ok(r.value.volumeUsdH1) == At(pool, ["attributes", "volume_usd", "h1"])
        && Ok(r.value.volumeUsdH24) == At(pool, ["attributes", "volume_usd", "h24"])
        && At(pool, ["attributes", "price_change_percentage", "h1"]).Ok?
        && Ok(r.value.priceChangePercentageH1) == Loads(At(pool, ["attributes", "price_change_percentage", "h1"]).value, decode)
        && At(pool, ["attributes", "price_change_percentage", "h24"]).Ok?
        && Ok(r.value.priceChangePercentageH24) == Loads(At(pool, ["attributes", "price_change_percentage", "h24"]).value, decode)
        && Ok(r.value.transactionsH1Buys) == At(pool, ["attributes", "transactions", "h1", "buys"])
        && Ok(r.value.transactionsH1Sells) == At(pool, ["attributes", "transactions", "h1", "sells"])
  {
    var attributes := Subscript(pool, "attributes");
    if attributes.Ok? {
      var a := attributes.value;
      FromAttributesSpec(a, decode);
      AtUnder(pool, ["address"]);
      AtUnder(pool, ["name"]);
      AtUnder(pool, ["pool_created_at"]);
      AtUnder(pool, ["fdv_usd"]);
      AtUnder(pool, ["market_cap_usd"]);
      AtUnder(pool, ["volume_usd", "h1"]);
      AtUnder(pool, ["volume_usd", "h24"]);
      AtUnder(pool, ["price_change_percentage", "h1"]);
      AtUnder(pool, ["price_change_percentage", "h24"]);
      AtUnder(pool, ["transactions", "h1", "buys"]);
      AtUnder(pool, ["transactions", "h1", "sells"]);
      if ExtractPool(pool, decode).Ok? {
        OptionalOfDict(a, "fdv_usd");
        OptionalOfDict(a, "market_cap_usd");
      }
    }
  }

  /** A path from the pool through `attributes`. */
  lemma AtUnder(pool: Json, p: seq<string>)
    requires Subscript(pool, "attributes").Ok?
    ensures At(pool, ["attributes"] + p) == At(Subscript(pool, "attributes").value, p)
  {
    AtCons(pool, "attributes", p);
  }

  /** On a dict, one subscript succeeds exactly when `.get` finds the key. */
  lemma OptionalOfDict(a: Json, key: string)
    requires a.JObj?
    ensures At(a, [key]).Ok? <==> HasKey(a.members, key)
    ensures At(a, [key]).Ok? ==> At(a, [key]).value == Get(a.members, key).value
  {
    AtOne(a, key);
  }

  /** The loop of parse_crypto_pools over the pools of `data['data']`.  The payload is a value, so
      it is only read. */
  method ParseCryptoPools(payload: Json, decode: string -> Option<Json>) returns (r: Result<seq<PoolInfo>>)
    ensures DataEntries(payload).Err? ==> r == Err(DataEntries(payload).error)
    ensures DataEntries(payload).Ok? ==>
      var pools := DataEntries(payload).value;
      r.Ok? <==> forall i :: 0 <= i < |pools| ==> ExtractPool(pools[i], decode).Ok?
    ensures DataEntries(payload).Ok? && r.Ok? ==>
      var pools := DataEntries(payload).value;
      |r.value| == |pools| && forall i :: 0 <= i < |pools| ==> ExtractPool(pools[i], decode) == Ok(r.value[i])
    ensures DataEntries(payload).Ok? && r.Err? ==>
      var pools := DataEntries(payload).value;
      exists i :: (0 <= i < |pools| && ExtractPool(pools[i], decode) == Err(r.error) &&
                   forall j :: 0 <= j < i ==> ExtractPool(pools[j], decode).Ok?)
  {
    var entries := DataEntries(payload);
    if entries.Err? {
      return Err(entries.error);
    }
    var pools := entries.value;
    var parsed: seq<PoolInfo> := [];
    for i := 0 to |pools|
      invariant |parsed| == i
      invariant forall j :: 0 <= j < i ==> ExtractPool(pools[j], decode) == Ok(parsed[j])
    {
      var info := ExtractPool(pools[i], decode);
      if info.Err? {
        return Err(info.error);
      }
      parsed := parsed + [info.value];
    }
    r := Ok(parsed);
  }
}
