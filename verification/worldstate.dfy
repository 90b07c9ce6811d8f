/** The ledger as the chaincodes see it through the Fabric stub: a map from
    keys to stored values, read with `GetState` and written with `PutState`,
    plus what a transaction supplies from outside (its timestamp and the two
    foreign parsers the chaincodes call). Also the pieces every chaincode
    shares: decoding a stored value into a record, the error and response
    shapes, and the identical `query` operation. */
module WorldState {
  import opened Records

  datatype Option<T> = None | Some(value: T)

  datatype Result<T, E> = Success(value: T) | Failure(error: E)

  /** One chaincode's world state. A key that is absent reads as nil. */
  type Ledger = map<string, Stored>

  /** What an invocation receives from outside the chaincode: the
      transaction time in seconds (`GetTxTimestamp`), the JSON reading of
      an argument string (`json.Unmarshal`), and `strconv.ParseFloat` with
      its error dropped, as `updateGemPrice` drops it. */
  datatype Env = Env(now: int, parseJson: string -> Stored, parseFloat: string -> Float)

  /** `time.Unix(timestamp.GetSeconds(), 0)`. */
  function TxTime(env: Env): Stamp
  {
    Unix(env.now)
  }

  /** `GetState`: the stored value, or nil. */
  function Get(l: Ledger, key: string): (v: Option<Stored>)
    ensures v.Some? <==> key in l
    ensures v.Some? ==> l[key] == v.value
  {
    if key in l then Some(l[key]) else None
  }

  /** Why `json.Unmarshal` refused a value. */
  datatype DecodeError =
    | EndOfInput                 // nil bytes: "unexpected end of JSON input"
    | Syntax(detail: string)     // bytes that are not JSON
    | WrongShape(found: string)  // JSON of another shape, e.g. an array into a struct

  /** The decoder's complaint about a value that is not of the expected shape. */
  function Fault(v: Option<Stored>): DecodeError
  {
    match v
    case None => EndOfInput
    case Some(Malformed(detail)) => Syntax(detail)
    case Some(RegistryRecord(_)) => WrongShape("registry gem")
    case Some(CatalogRecord(_)) => WrongShape("catalog gem")
    case Some(IndexRecord(_)) => WrongShape("array")
    case Some(TradeRecord(_)) => WrongShape("trade")
  }

  /** Decoding into the registry's `Gem`. */
  function DecodeGem(v: Option<Stored>): (r: Result<Gem, DecodeError>)
    ensures r.Success? <==> v.Some? && v.value.RegistryRecord?
    ensures r.Success? ==> v.value.gem == r.value
  {
    match v
    case Some(RegistryRecord(g)) => Success(g)
    case _ => Failure(Fault(v))
  }

  /** Decoding into the marketplace's `Gem`. */
  function DecodeCatalogGem(v: Option<Stored>): (r: Result<CatalogGem, DecodeError>)
    ensures r.Success? <==> v.Some? && v.value.CatalogRecord?
    ensures r.Success? ==> v.value.item == r.value
  {
    match v
    case Some(CatalogRecord(g)) => Success(g)
    case _ => Failure(Fault(v))
  }

  /** Decoding into a `[]string`. */
  function DecodeIndex(v: Option<Stored>): (r: Result<seq<string>, DecodeError>)
    ensures r.Success? <==> v.Some? && v.value.IndexRecord?
    ensures r.Success? ==> v.value.ids == r.value
  {
    match v
    case Some(IndexRecord(ids)) => Success(ids)
    case _ => Failure(Fault(v))
  }

  /** Decoding into a `Trade`. */
  function DecodeTrade(v: Option<Stored>): (r: Result<Trade, DecodeError>)
    ensures r.Success? <==> v.Some? && v.value.TradeRecord?
    ensures r.Success? ==> v.value.trade == r.value
  {
    match v
    case Some(TradeRecord(t)) => Success(t)
    case _ => Failure(Fault(v))
  }

  /** The failures an invocation reports: through `shim.Error`, or, for
      `ArgumentMissing`, as a Go runtime panic. */
  datatype Error =
    | UnknownFunction
    | QueryArity
    | NoResults(id: string)
    | Undecodable(cause: DecodeError)
    | IndexUndecodable(indexName: string, cause: DecodeError)
    | ArgumentMissing(position: nat)  // the source indexes `args` unchecked and panics
    | UnsupportedValue(str: string)   // `json.Marshal` of a NaN or infinite float, as Go formats it

  /** The text each failure reports: what `shim.Error` carries, or for
      `ArgumentMissing` the text of the Go runtime panic. */
  function Message(e: Error): string
  {
    match e
    case UnknownFunction => "Invalid invoke function name"
    case QueryArity => "Query function requires one argument: ID"
    case NoResults(id) => "No results for: " + id
    case Undecodable(cause) => DecodeMessage(cause)
    case IndexUndecodable(name, cause) =>
      "Error unmarshalling index '" + name + "': " + DecodeMessage(cause)
    case ArgumentMissing(_) => "runtime error: index out of range"
    case UnsupportedValue(str) => "json: unsupported value: " + str
  }

  function DecodeMessage(e: DecodeError): string
  {
    match e
    case EndOfInput => "unexpected end of JSON input"
    case Syntax(detail) => detail
    case WrongShape(found) => "json: cannot unmarshal " + found
  }

  /** What a successful invocation hands back: nothing, stored bytes, or the
      JSON list `getAllGems` builds. */
  datatype Payload = Empty | Bytes(value: Stored) | GemList(gems: seq<CatalogGem>)

  datatype Response = Ok(payload: Payload) | Err(error: Error)

  /** The response of one invocation and the ledger it leaves behind. */
  datatype Outcome = Outcome(response: Response, ledger: Ledger)

  /** `after` is `before` with at most the one key `key` written. */
  predicate WritesOnly(before: Ledger, after: Ledger, key: string)
  {
    key in after && after == before[key := after[key]]
  }

  /** Every value to which `idOf` assigns an ID sits under that ID. Each
      chaincode passes the ID of its own record kind. */
  predicate KeyedBy(l: Ledger, idOf: Stored -> Option<string>)
  {
    forall k :: k in l && idOf(l[k]).Some? ==> idOf(l[k]).value == k
  }

  /** `after` is `before` with one key written, and the value written there
      carries that key as its ID according to `idOf`. */
  predicate WritesOwnRecord(before: Ledger, after: Ledger, key: string, idOf: Stored -> Option<string>)
  {
    WritesOnly(before, after, key) && idOf(after[key]) == Some(key)
  }

  /** `query`, identical in all three chaincodes: exactly one argument, and
      the raw stored value under it; an absent key is an error, never an
      empty success. */
  function Query(l: Ledger, args: seq<string>): (r: Response)
    ensures r.Ok? <==> |args| == 1 && args[0] in l
    ensures |args| != 1 ==>
              r == Err(QueryArity) && Message(r.error) == "Query function requires one argument: ID"
    ensures |args| == 1 && args[0] !in l ==>
              r == Err(NoResults(args[0])) && Message(r.error) == "No results for: " + args[0]
    ensures r.Ok? ==> r.payload == Bytes(l[args[0]])
  {
    if |args| != 1 then Err(QueryArity)
    else
      match Get(l, args[0])
      case None => Err(NoResults(args[0]))
      case Some(payload) => Ok(Bytes(payload))
  }
}
